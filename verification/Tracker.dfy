/**
  * The tracker's loop (components/esp32_ble_tracker/esp32_ble_tracker.cpp, esp32_ble_tracker.h):
  * it delivers queued advertisements to its clients and promotes clients in DISCOVERED. The scan
  * over the clients is skipped while an 8-bit counter of state changes looks unchanged.
  */
module Tracker {
  import opened Common
  import opened ClientStates

  const QUEUE_MAX := 128

  /** What a client compares an advertisement with; address 0 matches nothing. */
  datatype Config = Config(address: Uint64, autoConnect: bool)

  datatype Scan = Scan(
    configs: seq<Config>,
    states: seq<ClientState>,   // one per registered client
    version: Byte,              // bumped by every set_state of any client
    lastVersion: Byte,          // as it was when the clients were last scanned
    since: nat,                 // true number of changes since then
    queue: seq<Uint64>)         // addresses of advertisements not yet delivered

  ghost predicate WellFormed(t: Scan) {
    |t.states| == |t.configs|
  }

  function SetStateOf(t: Scan, i: nat, st: ClientState): Scan
    requires i < |t.states|
  {
    t.(states := t.states[i := st], version := (t.version + 1) % 256, since := t.since + 1)
  }

  /** `deliver_device_`: a bounded queue that drops its oldest entry. */
  function Deliver(t: Scan, address: Uint64): Scan {
    t.(queue := (if |t.queue| >= QUEUE_MAX then t.queue[1..] else t.queue) + [address])
  }

  function ParseOne(t: Scan, address: Uint64, i: nat): Scan
    requires WellFormed(t) && i < |t.states|
  {
    var c := t.configs[i];
    if c.address != 0 && c.address == address && t.states[i] == IDLE && c.autoConnect then SetStateOf(t, i, DISCOVERED) else t
  }

  /** One advertisement, given to the first n clients. */
  function ParseUpTo(t: Scan, address: Uint64, n: nat): (r: Scan)
    requires WellFormed(t) && n <= |t.states|
    ensures WellFormed(r) && |r.states| == |t.states|
  {
    if n == 0 then t else ParseOne(ParseUpTo(t, address, n - 1), address, n - 1)
  }

  function DrainUpTo(t: Scan, drained: seq<Uint64>, n: nat): (r: Scan)
    requires WellFormed(t) && n <= |drained|
    ensures WellFormed(r) && |r.states| == |t.states|
  {
    if n == 0 then t else
      var before := DrainUpTo(t, drained, n - 1);
      ParseUpTo(before, drained[n - 1], |before.states|)
  }

  function PromoteOne(t: Scan, i: nat): Scan
    requires i < |t.states|
  {
    if t.states[i] == DISCOVERED then SetStateOf(t, i, CONNECTING) else t
  }

  function PromoteUpTo(t: Scan, n: nat): (r: Scan)
    requires n <= |t.states|
    ensures |r.states| == |t.states| && r.configs == t.configs
  {
    if n == 0 then t else PromoteOne(PromoteUpTo(t, n - 1), n - 1)
  }

  /** The state at the moment loop() looks at the counter. */
  function Drained(t: Scan): (r: Scan)
    requires WellFormed(t)
    ensures WellFormed(r) && |r.states| == |t.states|
  {
    DrainUpTo(t.(queue := []), t.queue, |t.queue|)
  }

  function Check(t: Scan): Scan {
    if t.states != [] && t.version != t.lastVersion then
      PromoteUpTo(t.(lastVersion := t.version, since := 0), |t.states|)
    else t
  }

  function LoopOnce(t: Scan): Scan
    requires WellFormed(t)
  {
    Check(Drained(t))
  }

  ghost predicate NoneDiscovered(t: Scan) {
    forall i :: 0 <= i < |t.states| ==> t.states[i] != DISCOVERED
  }

  // ----- the counter -----

  /** The counter is right modulo 256, and without changes nothing is waiting. */
  ghost predicate Inv(t: Scan) {
    && WellFormed(t)
    && t.version == (t.lastVersion + t.since) % 256
    && (t.since == 0 ==> NoneDiscovered(t))
  }

  lemma {:induction false} SetStateKeepsInv(t: Scan, i: nat, st: ClientState)
    requires Inv(t) && i < |t.states|
    ensures Inv(SetStateOf(t, i, st))
  {
  }

  lemma {:induction false} ParseKeepsInv(t: Scan, address: Uint64, n: nat)
    requires Inv(t) && n <= |t.states|
    ensures Inv(ParseUpTo(t, address, n))
  {
    if n > 0 {
      ParseKeepsInv(t, address, n - 1);
      SetStateKeepsInv(ParseUpTo(t, address, n - 1), n - 1, DISCOVERED);
    }
  }

  lemma {:induction false} DrainKeepsInv(t: Scan, drained: seq<Uint64>, n: nat)
    requires Inv(t) && n <= |drained|
    ensures Inv(DrainUpTo(t, drained, n))
  {
    if n > 0 {
      DrainKeepsInv(t, drained, n - 1);
      var before := DrainUpTo(t, drained, n - 1);
      ParseKeepsInv(before, drained[n - 1], |before.states|);
    }
  }

  lemma {:induction false} CounterSucc(n: nat)
    ensures (n % 256 + 1) % 256 == (n + 1) % 256
  {
  }

  lemma {:induction false} PromoteClears(t: Scan, n: nat)
    requires WellFormed(t) && n <= |t.states| && t.version == (t.lastVersion + t.since) % 256
    ensures var r := PromoteUpTo(t, n);
            && r.version == (r.lastVersion + r.since) % 256
            && (forall i :: 0 <= i < n ==> r.states[i] == if t.states[i] == DISCOVERED then CONNECTING else t.states[i])
            && (forall i :: n <= i < |t.states| ==> r.states[i] == t.states[i])
  {
    if n > 0 {
      PromoteClears(t, n - 1);
      var r := PromoteUpTo(t, n - 1);
      CounterSucc(r.lastVersion + r.since);
    }
  }

  /** When the counter is looked at, waiting clients are promoted exactly when the number of
      changes since the last scan is not a multiple of 256. */
  lemma {:induction false} CheckPromotesIff(t: Scan)
    requires Inv(t)
    ensures Inv(Check(t))
    ensures NoneDiscovered(Check(t)) <==> NoneDiscovered(t) || t.since % 256 != 0
  {
    if t.states != [] && t.version != t.lastVersion {
      PromoteClears(t.(lastVersion := t.version, since := 0), |t.states|);
    }
  }

  // ----- what one loop does to each client -----

  /** An auto-connecting client with this address; address 0 is nobody's. */
  predicate Matches(c: Config, address: Uint64) {
    c.autoConnect && address != 0 && c.address == address
  }

  lemma {:induction false} ParseSets(t: Scan, address: Uint64, n: nat)
    requires WellFormed(t) && n <= |t.states|
    ensures var r := ParseUpTo(t, address, n);
            && r.configs == t.configs && r.queue == t.queue && r.lastVersion == t.lastVersion
            && forall i :: 0 <= i < |t.states| ==>
                 r.states[i] == if i < n && t.states[i] == IDLE && Matches(t.configs[i], address) then DISCOVERED else t.states[i]
  {
    if n > 0 {
      ParseSets(t, address, n - 1);
    }
  }

  predicate Heard(c: Config, addresses: seq<Uint64>, n: nat)
    requires n <= |addresses|
  {
    exists k :: 0 <= k < n && Matches(c, addresses[k])
  }

  lemma {:induction false} DrainSets(t: Scan, drained: seq<Uint64>, n: nat)
    requires WellFormed(t) && n <= |drained|
    ensures var r := DrainUpTo(t, drained, n);
            && r.configs == t.configs && r.queue == t.queue && r.lastVersion == t.lastVersion
            && forall i :: 0 <= i < |t.states| ==>
                 r.states[i] == if t.states[i] == IDLE && Heard(t.configs[i], drained, n) then DISCOVERED else t.states[i]
  {
    if n > 0 {
      DrainSets(t, drained, n - 1);
      var before := DrainUpTo(t, drained, n - 1);
      ParseSets(before, drained[n - 1], |before.states|);
      assert forall i :: 0 <= i < |t.states| ==>
               (Heard(t.configs[i], drained, n) <==> Heard(t.configs[i], drained, n - 1) || Matches(t.configs[i], drained[n - 1]));
    }
  }

  /** A client is due to connect: it waits already, or is idle and its advertisement is queued. */
  predicate Due(t: Scan, i: nat)
    requires WellFormed(t) && i < |t.states|
  {
    t.states[i] == DISCOVERED || (t.states[i] == IDLE && Heard(t.configs[i], t.queue, |t.queue|))
  }

  /** A loop connects exactly the clients that are due and leaves the others alone, and empties the
      queue, unless clients are due and the number of changes it sees is a multiple of 256. */
  lemma {:induction false} LoopConnectsDueIff(t: Scan)
    requires Inv(t)
    ensures var r := LoopOnce(t);
            && |r.states| == |t.states| && r.queue == []
            && ((forall i :: 0 <= i < |t.states| ==> r.states[i] == if Due(t, i) then CONNECTING else t.states[i])
                <==> (forall i :: 0 <= i < |t.states| ==> !Due(t, i)) || Drained(t).since % 256 != 0)
  {
    var d := Drained(t);
    DrainSets(t.(queue := []), t.queue, |t.queue|);
    DrainKeepsInv(t.(queue := []), t.queue, |t.queue|);
    assert forall i :: 0 <= i < |t.states| ==> (d.states[i] == DISCOVERED <==> Due(t, i));
    CheckSets(d);
  }

  lemma {:induction false} CheckSets(d: Scan)
    requires Inv(d)
    ensures Check(d).queue == d.queue && |Check(d).states| == |d.states|
    ensures forall i :: 0 <= i < |d.states| ==>
              Check(d).states[i] == if d.states[i] == DISCOVERED && d.since % 256 != 0 then CONNECTING else d.states[i]
  {
    if d.states != [] && d.version != d.lastVersion {
      PromoteClears(d.(lastVersion := d.version, since := 0), |d.states|);
      PromoteKeepsQueue(d.(lastVersion := d.version, since := 0), |d.states|);
    }
  }

  lemma {:induction false} PromoteKeepsQueue(t: Scan, n: nat)
    requires n <= |t.states|
    ensures PromoteUpTo(t, n).queue == t.queue
  {
    if n > 0 {
      PromoteKeepsQueue(t, n - 1);
    }
  }

  // ----- runs -----

  datatype Step =
    | Change(client: nat, state: ClientState)   // any set_state outside the tracker's loop
    | Advertise(address: Uint64)
    | LoopStep

  function Next(t: Scan, step: Step): Scan
    requires WellFormed(t)
  {
    match step
    case Change(i, st) => if i < |t.states| then SetStateOf(t, i, st) else t
    case Advertise(a) => Deliver(t, a)
    case LoopStep => LoopOnce(t)
  }

  function Run(t: Scan, steps: seq<Step>, n: nat): (r: Scan)
    requires WellFormed(t) && n <= |steps|
    ensures WellFormed(r)
  {
    if n == 0 then t else
      var before := Run(t, steps, n - 1);
      CheckShape(Drained(before));
      Next(before, steps[n - 1])
  }

  lemma {:induction false} CheckShape(t: Scan)
    ensures |Check(t).states| == |t.states| && Check(t).configs == t.configs
  {
  }

  /** Fewer than 256 changes, promotions included, between two looks at the counter. */
  ghost predicate Quiet(t: Scan, steps: seq<Step>, n: nat)
    requires WellFormed(t) && n <= |steps|
  {
    forall i :: 0 <= i < n && steps[i].LoopStep? ==> Drained(Run(t, steps, i)).since < 256
  }

  lemma {:induction false} StepKeepsInv(t: Scan, step: Step)
    requires Inv(t)
    ensures Inv(Next(t, step))
    ensures step.LoopStep? && Drained(t).since < 256 ==> NoneDiscovered(Next(t, step))
  {
    match step
    case Change(i, st) =>
    case Advertise(a) =>
    case LoopStep =>
      DrainKeepsInv(t.(queue := []), t.queue, |t.queue|);
      CheckPromotesIff(Drained(t));
  }

  /** No client is left in DISCOVERED at the end of any tracker loop. */
  lemma {:induction false} NoMissedPromotion(t: Scan, steps: seq<Step>, n: nat)
    requires Inv(t) && n <= |steps| && Quiet(t, steps, n)
    ensures Inv(Run(t, steps, n))
    ensures n > 0 && steps[n - 1].LoopStep? ==> NoneDiscovered(Run(t, steps, n))
  {
    if n > 0 {
      NoMissedPromotion(t, steps, n - 1);
      StepKeepsInv(Run(t, steps, n - 1), steps[n - 1]);
    }
  }

  /** The last n of a list. */
  function Newest<T>(s: seq<T>, n: nat): seq<T> {
    if |s| <= n then s else s[|s| - n..]
  }

  function Advertised(steps: seq<Step>, n: nat): seq<Uint64>
    requires n <= |steps|
  {
    if n == 0 then [] else Advertised(steps, n - 1) + if steps[n - 1].Advertise? then [steps[n - 1].address] else []
  }

  /** Until the next loop, the queue holds the newest 128 advertisements. */
  lemma {:induction false} QueueIsNewest(t: Scan, steps: seq<Step>, n: nat)
    requires WellFormed(t) && n <= |steps| && |t.queue| <= 128 && forall i :: 0 <= i < n ==> !steps[i].LoopStep?
    ensures Run(t, steps, n).queue == Newest(t.queue + Advertised(steps, n), 128)
  {
    if n == 0 {
      assert t.queue + [] == t.queue;
    } else {
      QueueIsNewest(t, steps, n - 1);
      if steps[n - 1].Advertise? {
        ConcatAssociates(t.queue, Advertised(steps, n - 1), [steps[n - 1].address]);
        NewestSnoc(t.queue + Advertised(steps, n - 1), steps[n - 1].address, 128);
      }
    }
  }

  lemma {:induction false} NewestSnoc<T>(s: seq<T>, x: T, n: nat)
    requires n > 0
    ensures Newest(s + [x], n) == (if |Newest(s, n)| >= n then Newest(s, n)[1..] else Newest(s, n)) + [x]
  {
  }

  /** 255 changes of one client, and one more that leaves it waiting. */
  function HidingRun(): seq<Step> {
    seq(255, _ => Change(0, IDLE)) + [Change(0, DISCOVERED), Step.LoopStep]
  }

  lemma {:induction false} ChangesCounted(t: Scan, steps: seq<Step>, n: nat)
    requires WellFormed(t) && |t.states| == 1 && n <= |steps| && forall i :: 0 <= i < n ==> steps[i].Change? && steps[i].client == 0
    ensures var r := Run(t, steps, n);
            && |r.states| == 1 && r.version == (t.version + n) % 256 && r.since == t.since + n
            && r.lastVersion == t.lastVersion && r.queue == t.queue && (n > 0 ==> r.states[0] == steps[n - 1].state)
  {
    if n > 0 {
      ChangesCounted(t, steps, n - 1);
      CounterSucc(t.version + (n - 1));
    }
  }

  /** From a new tracker with one client, 256 changes before the first loop hide that it waits. */
  lemma {:induction false} WrapMissesPromotion(t: Scan)
    requires WellFormed(t) && t.states == [INIT] && t.version == t.lastVersion == 0 && t.since == 0 && t.queue == []
    ensures Inv(t)
    ensures var steps := HidingRun();
            steps[|steps| - 1] == Step.LoopStep && !NoneDiscovered(Run(t, steps, |steps|))
  {
    var steps := HidingRun();
    ChangesCounted(t, steps, 256);
    var r := Run(t, steps, 256);
    assert steps[255] == Change(0, DISCOVERED) && r.states[0] == DISCOVERED;
    assert Drained(r) == r by {
      assert r.(queue := []) == r;
    }
    assert Run(t, steps, 257) == LoopOnce(r) == r;
  }

  // ----- the tracker object -----

  class BleTracker {
    const configs: seq<Config>
    const states: array<ClientState>
    var version: Byte
    var lastVersion: Byte
    var queue: seq<Uint64>
    ghost var since: nat

    ghost predicate Valid()
      reads this
    {
      states.Length == |configs|
    }

    ghost function View(): Scan
      requires Valid()
      reads this, states
    {
      Scan(configs, states[..], version, lastVersion, since, queue)
    }

    /** Clients register in INIT. */
    constructor (configs: seq<Config>)
      ensures Valid() && fresh(states) && this.configs == configs
      ensures View() == Scan(configs, seq(|configs|, _ => INIT), 0, 0, 0, []) && Inv(View())
    {
      this.configs := configs;
      states := new ClientState[|configs|](_ => INIT);
      version, lastVersion, queue, since := 0, 0, [], 0;
      new;
      assert states[..] == seq(|configs|, _ => INIT);
    }

    method ChangeState(i: nat, st: ClientState)
      requires Valid() && i < states.Length
      modifies this`version, this`since, states
      ensures View() == SetStateOf(old(View()), i, st)
    {
      states[i] := st;
      version := (version + 1) % 256;
      since := since + 1;
    }

    method DeliverDevice(address: Uint64)
      requires Valid()
      modifies this`queue
      ensures View() == Deliver(old(View()), address)
    {
      if |queue| >= QUEUE_MAX {
        queue := queue[1..];
      }
      queue := queue + [address];
    }

    method ParseDeviceAll(address: Uint64)
      requires Valid()
      modifies this`version, this`since, states
      ensures View() == ParseUpTo(old(View()), address, states.Length)
    {
      ghost var t := View();
      for i := 0 to states.Length
        invariant View() == ParseUpTo(t, address, i)
      {
        if configs[i].address != 0 && configs[i].address == address {
          if states[i] == IDLE && configs[i].autoConnect {
            ChangeState(i, DISCOVERED);
          }
        }
      }
    }

    method TryPromoteDiscoveredClients()
      requires Valid()
      modifies this`version, this`since, states
      ensures View() == PromoteUpTo(old(View()), states.Length)
    {
      ghost var t := View();
      for i := 0 to states.Length
        invariant View() == PromoteUpTo(t, i)
      {
        if states[i] == DISCOVERED {
          ChangeState(i, CONNECTING);
        }
      }
    }

    method Loop()
      requires Valid()
      modifies this, states
      ensures View() == LoopOnce(old(View()))
    {
      var drained := queue;
      queue := [];
      ghost var t := View();
      for i := 0 to |drained|
        invariant View() == DrainUpTo(t, drained, i)
      {
        ParseDeviceAll(drained[i]);
      }
      if states.Length != 0 && version != lastVersion {
        lastVersion := version;
        since := 0;
        TryPromoteDiscoveredClients();
      }
    }
  }
}
