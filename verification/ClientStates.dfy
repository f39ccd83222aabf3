/**
  * The GATT client's connection state machine and its timeouts
  * (components/esp32_ble_client/ble_client_base.cpp, ble_client_base.h,
  * components/esp32_ble_tracker/esp32_ble_tracker.h). millis() is a 32-bit counter that wraps.
  */
module ClientStates {
  import opened Common
  import opened Discovery
  import opened DiscoveryIndex

  const CONNECT_TIMEOUT_MS := 20000
  const DISCONNECT_TIMEOUT_MS := 10000
  const WRAP := 0x1_0000_0000

  datatype ClientState = INIT | DISCONNECTING | IDLE | DISCOVERED | CONNECTING | CONNECTED | ESTABLISHED

  datatype HostEvent =
    | ConnectedEvent
    | DisconnectedEvent(reason: int)
    | ServicesDiscoveredEvent(services: seq<DiscoveredService>, mtu: Uint16)
    | PairingCompleteEvent(success: bool)
    | OtherEvent

  datatype HostCommand = ConnectCommand | DisconnectCommand

  datatype Client = Client(
    state: ClientState,
    wantDisconnect: bool,
    connectingStarted: Uint32,
    disconnectingStarted: Uint32,
    services: seq<DiscoveredService>,
    mtu: Uint16,
    paired: bool,
    hosted: bool,                    // the worker-side host object exists
    commands: seq<HostCommand>)      // what the worker has been asked to do

  function Millis(now: nat): Uint32 {
    now % WRAP
  }

  /** Unsigned 32-bit subtraction. */
  function Elapsed(now: nat, since: Uint32): Uint32 {
    (Millis(now) - since) % WRAP
  }

  // ----- operations -----

  function SetState(c: Client, st: ClientState): Client {
    c.(state := st, wantDisconnect := if st == IDLE then false else c.wantDisconnect)
  }

  function Command(c: Client, k: HostCommand): Client {
    if c.hosted then c.(commands := c.commands + [k]) else c
  }

  function Connect(c: Client, now: nat): Client {
    Command(SetState(c, CONNECTING).(connectingStarted := Millis(now), hosted := true), ConnectCommand)
  }

  function UnconditionalDisconnect(c: Client, now: nat): Client {
    Command(SetState(c.(disconnectingStarted := Millis(now)), DISCONNECTING), DisconnectCommand)
  }

  function Disconnect(c: Client, now: nat): Client {
    match c.state
    case IDLE => c
    case CONNECTING => c.(wantDisconnect := true)
    case _ => UnconditionalDisconnect(c, now)
  }

  function Dispatch(c: Client, ev: HostEvent, now: nat): Client {
    match ev
    case ConnectedEvent => if c.wantDisconnect then UnconditionalDisconnect(c, now) else SetState(c, CONNECTED)
    case ServicesDiscoveredEvent(services, mtu) => SetState(c.(mtu := mtu, services := services), ESTABLISHED)
    case DisconnectedEvent(_) => SetState(c.(services := []), IDLE)
    case PairingCompleteEvent(success) => c.(paired := success)
    case OtherEvent => c
  }

  function DispatchUpTo(c: Client, evs: seq<HostEvent>, n: nat, now: nat): Client
    requires n <= |evs|
  {
    if n == 0 then c else Dispatch(DispatchUpTo(c, evs, n - 1, now), evs[n - 1], now)
  }

  function CheckConnecting(c: Client, now: nat): Client {
    if c.state == CONNECTING && Elapsed(now, c.connectingStarted) > CONNECT_TIMEOUT_MS then
      Dispatch(Command(c, DisconnectCommand), DisconnectedEvent(0x93), now)
    else c
  }

  function CheckDisconnecting(c: Client, now: nat): Client {
    if c.state == DISCONNECTING && Elapsed(now, c.disconnectingStarted) > DISCONNECT_TIMEOUT_MS then
      Dispatch(c, DisconnectedEvent(0x93), now)
    else c
  }

  /** One loop(): the clock is read while dispatching and at each of the two checks. */
  function Loop(c: Client, evs: seq<HostEvent>, t: Times): Client {
    var drained := if c.hosted then evs else [];
    CheckDisconnecting(CheckConnecting(DispatchUpTo(c, drained, |drained|, t.dispatch), t.connecting), t.disconnecting)
  }

  /** True times, in ms since start, of the clock readings of one loop. */
  datatype Times = Times(dispatch: nat, connecting: nat, disconnecting: nat)

  function ParseDevice(c: Client, autoConnect: bool, matches: bool): Client {
    if matches && c.state == IDLE && autoConnect then SetState(c, DISCOVERED) else c
  }

  // ----- runs -----

  /** What can happen to a client on the main thread; `at` is the true time. */
  datatype Step =
    | ConnectStep(at: nat)
    | DisconnectStep(at: nat)
    | AdvertisementStep(autoConnect: bool, matches: bool, at: nat)
    | ReserveStep(at: nat)          // the proxy reserves the slot: set_state(INIT)
    | RequestStep(at: nat)          // a connect request on a reserved slot: set_state(DISCOVERED)
    | CancelStep(at: nat)           // cancel_pending_disconnect
    | LoopStep(events: seq<HostEvent>, times: Times)

  function Next(c: Client, step: Step): Client {
    match step
    case ConnectStep(at) => Connect(c, at)
    case DisconnectStep(at) => Disconnect(c, at)
    case AdvertisementStep(a, m, _) => ParseDevice(c, a, m)
    case ReserveStep(_) => SetState(c, INIT)
    case RequestStep(_) => if c.state == INIT then SetState(c, DISCOVERED) else c
    case CancelStep(_) => c.(wantDisconnect := false)
    case LoopStep(evs, t) => Loop(c, evs, t)
  }

  function Run(c: Client, steps: seq<Step>, n: nat): Client
    requires n <= |steps|
  {
    if n == 0 then c else Next(Run(c, steps, n - 1), steps[n - 1])
  }

  // ----- IDLE is clean -----

  ghost predicate CleanWhenIdle(c: Client) {
    c.state == IDLE ==> !c.wantDisconnect && c.services == []
  }

  lemma {:induction false} DispatchKeepsClean(c: Client, evs: seq<HostEvent>, n: nat, now: nat)
    requires n <= |evs| && CleanWhenIdle(c)
    ensures CleanWhenIdle(DispatchUpTo(c, evs, n, now))
  {
    if n > 0 {
      DispatchKeepsClean(c, evs, n - 1, now);
    }
  }

  /** A dispatched event never raises a pending disconnect. */
  lemma {:induction false} DispatchRaisesNothing(c: Client, evs: seq<HostEvent>, n: nat, now: nat)
    requires n <= |evs|
    ensures DispatchUpTo(c, evs, n, now).wantDisconnect ==> c.wantDisconnect
  {
    if n > 0 {
      DispatchRaisesNothing(c, evs, n - 1, now);
    }
  }

  lemma {:induction false} LoopKeepsClean(c: Client, evs: seq<HostEvent>, t: Times)
    requires CleanWhenIdle(c)
    ensures CleanWhenIdle(Loop(c, evs, t))
    ensures Loop(c, evs, t).wantDisconnect ==> c.wantDisconnect
  {
    var drained := if c.hosted then evs else [];
    DispatchKeepsClean(c, drained, |drained|, t.dispatch);
    DispatchRaisesNothing(c, drained, |drained|, t.dispatch);
  }

  /** In every run a client in IDLE has no pending disconnect and no service tree, and a pending
      disconnect is raised only by disconnect() while CONNECTING. */
  lemma {:induction false} IdleIsClean(c: Client, steps: seq<Step>, n: nat)
    requires n <= |steps| && CleanWhenIdle(c)
    ensures CleanWhenIdle(Run(c, steps, n))
    ensures n > 0 && Run(c, steps, n).wantDisconnect && !Run(c, steps, n - 1).wantDisconnect ==>
              steps[n - 1].DisconnectStep? && Run(c, steps, n - 1).state == CONNECTING
  {
    if n > 0 {
      IdleIsClean(c, steps, n - 1);
      var before, step := Run(c, steps, n - 1), steps[n - 1];
      if step.LoopStep? {
        LoopKeepsClean(before, step.events, step.times);
      }
    }
  }

  // ----- after a disconnect request -----

  /** The last event that decides the state says SERVICES_DISCOVERED; `before` if none does. */
  function EndsDiscovered(evs: seq<HostEvent>, n: nat, before: bool): bool
    requires n <= |evs|
  {
    if n == 0 then before
    else match evs[n - 1]
      case ServicesDiscoveredEvent(_, _) => true
      case ConnectedEvent => false
      case DisconnectedEvent(_) => false
      case _ => EndsDiscovered(evs, n - 1, before)
  }

  /** The client has its worker-side host: it had one, or connect() has made it. */
  function Hosted(steps: seq<Step>, n: nat, before: bool): bool
    requires n <= |steps|
  {
    if n == 0 then before else steps[n - 1].ConnectStep? || Hosted(steps, n - 1, before)
  }

  /** The same over a run, where connect(), disconnect() and the proxy's reservation decide too;
      events are heard only through a host. */
  function RunEndsDiscovered(steps: seq<Step>, n: nat, hosted: bool, before: bool): bool
    requires n <= |steps|
  {
    if n == 0 then before
    else match steps[n - 1]
      case ConnectStep(_) => false
      case DisconnectStep(_) => false
      case ReserveStep(_) => false
      case LoopStep(evs, _) =>
        var earlier := RunEndsDiscovered(steps, n - 1, hosted, before);
        if Hosted(steps, n - 1, hosted) then EndsDiscovered(evs, |evs|, earlier) else earlier
      case _ => RunEndsDiscovered(steps, n - 1, hosted, before)
  }

  lemma {:induction false} DispatchEndsEstablished(c: Client, evs: seq<HostEvent>, n: nat, now: nat)
    requires n <= |evs|
    ensures var d := DispatchUpTo(c, evs, n, now);
            (d.state == ESTABLISHED <==> EndsDiscovered(evs, n, c.state == ESTABLISHED)) && d.hosted == c.hosted
  {
    if n > 0 {
      DispatchEndsEstablished(c, evs, n - 1, now);
    }
  }

  lemma {:induction false} LoopEndsEstablished(c: Client, evs: seq<HostEvent>, t: Times)
    ensures Loop(c, evs, t).state == ESTABLISHED <==>
            if c.hosted then EndsDiscovered(evs, |evs|, c.state == ESTABLISHED) else c.state == ESTABLISHED
    ensures Loop(c, evs, t).hosted == c.hosted
  {
    if c.hosted {
      DispatchEndsEstablished(c, evs, |evs|, t.dispatch);
    }
  }

  /** No guard looks at the disconnect request, so after it, as in any run, the client ends
      ESTABLISHED if and only if SERVICES_DISCOVERED was the last to decide: the timeouts never
      leave that state. */
  lemma {:induction false} EstablishedIff(c: Client, steps: seq<Step>, n: nat)
    requires n <= |steps|
    ensures Run(c, steps, n).state == ESTABLISHED <==> RunEndsDiscovered(steps, n, c.hosted, c.state == ESTABLISHED)
    ensures Run(c, steps, n).hosted == Hosted(steps, n, c.hosted)
  {
    if n > 0 {
      EstablishedIff(c, steps, n - 1);
      NextEndsEstablished(Run(c, steps, n - 1), steps[n - 1]);
    }
  }

  lemma {:induction false} NextEndsEstablished(c: Client, step: Step)
    ensures Next(c, step).hosted == (c.hosted || step.ConnectStep?)
    ensures Next(c, step).state == ESTABLISHED <==>
            match step
            case LoopStep(evs, _) => if c.hosted then EndsDiscovered(evs, |evs|, c.state == ESTABLISHED) else c.state == ESTABLISHED
            case _ => c.state == ESTABLISHED && !step.ConnectStep? && !step.DisconnectStep? && !step.ReserveStep?
  {
    if step.LoopStep? {
      LoopEndsEstablished(c, step.events, step.times);
    }
  }

  /** A late SERVICES_DISCOVERED undoes a disconnect request. */
  lemma {:induction false} LateDiscoveryEstablishes(c: Client, services: seq<DiscoveredService>, mtu: Uint16)
    returns (steps: seq<Step>)
    requires c.state == INIT && !c.hosted && !c.wantDisconnect
    ensures |steps| == 4 && steps[2].DisconnectStep? && Run(c, steps, 3).state == DISCONNECTING
    ensures steps[3] == LoopStep([ServicesDiscoveredEvent(services, mtu)], Times(0, 0, 0))
    ensures Run(c, steps, 4).state == ESTABLISHED
  {
    var up, late := [ConnectedEvent], [ServicesDiscoveredEvent(services, mtu)];
    steps := [ConnectStep(0), LoopStep(up, Times(0, 0, 0)), DisconnectStep(0), LoopStep(late, Times(0, 0, 0))];
    var connecting := Run(c, steps, 1);
    assert Run(c, steps, 0) == c && connecting == Connect(c, 0);
    assert DispatchUpTo(connecting, up, 1, 0) == Dispatch(DispatchUpTo(connecting, up, 0, 0), ConnectedEvent, 0);
    assert Run(c, steps, 2).state == CONNECTED && Run(c, steps, 2).hosted;
    var t := Run(c, steps, 3);
    assert t.state == DISCONNECTING && t.hosted;
    DispatchEndsEstablished(t, late, 1, 0);
    assert Run(c, steps, 4) == Next(t, steps[3]);
  }

  // ----- what an established client knows -----

  /** What the worker's events have told: the last snapshot and MTU, and the last pairing outcome. */
  datatype Heard = Heard(services: seq<DiscoveredService>, mtu: Uint16, paired: bool)

  function HeardUpTo(evs: seq<HostEvent>, n: nat, before: Heard): Heard
    requires n <= |evs|
  {
    if n == 0 then before
    else
      var h := HeardUpTo(evs, n - 1, before);
      match evs[n - 1]
      case ServicesDiscoveredEvent(services, mtu) => Heard(services, mtu, h.paired)
      case PairingCompleteEvent(success) => Heard(h.services, h.mtu, success)
      case _ => h
  }

  function RunHeard(steps: seq<Step>, n: nat, hosted: bool, before: Heard): Heard
    requires n <= |steps|
  {
    if n == 0 then before
    else
      var h := RunHeard(steps, n - 1, hosted, before);
      if steps[n - 1].LoopStep? && Hosted(steps, n - 1, hosted) then HeardUpTo(steps[n - 1].events, |steps[n - 1].events|, h) else h
  }

  /** The client has the MTU and pairing it was told; while ESTABLISHED its tree is the snapshot too. */
  predicate Knows(c: Client, h: Heard) {
    c.mtu == h.mtu && c.paired == h.paired && (c.state == ESTABLISHED ==> c.services == h.services)
  }

  lemma {:induction false} DispatchKnows(c: Client, evs: seq<HostEvent>, n: nat, now: nat, h: Heard)
    requires n <= |evs| && Knows(c, h)
    ensures Knows(DispatchUpTo(c, evs, n, now), HeardUpTo(evs, n, h))
  {
    if n > 0 {
      DispatchKnows(c, evs, n - 1, now, h);
    }
  }

  lemma {:induction false} NextKnows(c: Client, step: Step, h: Heard)
    requires Knows(c, h)
    ensures Knows(Next(c, step), if step.LoopStep? && c.hosted then HeardUpTo(step.events, |step.events|, h) else h)
  {
    if step.LoopStep? && c.hosted {
      DispatchKnows(c, step.events, |step.events|, step.times.dispatch, h);
    }
  }

  /** In every run, an ESTABLISHED client holds the service tree of the last SERVICES_DISCOVERED it
      heard, whatever came before and between, and its MTU; it is paired if the last pairing was. */
  lemma {:induction false} EstablishedHoldsSnapshot(c: Client, steps: seq<Step>, n: nat)
    requires n <= |steps|
    ensures Knows(Run(c, steps, n), RunHeard(steps, n, c.hosted, Heard(c.services, c.mtu, c.paired)))
  {
    if n > 0 {
      EstablishedHoldsSnapshot(c, steps, n - 1);
      EstablishedIff(c, steps, n - 1);
      NextKnows(Run(c, steps, n - 1), steps[n - 1], RunHeard(steps, n - 1, c.hosted, Heard(c.services, c.mtu, c.paired)));
    }
  }

  /** From the worker's walk to the client's lookups: an ESTABLISHED client whose last snapshot is that
      of a successful walk finds exactly the handles the worker routes, as the same kind, if and only
      if no characteristic and descriptor share a handle. */
  lemma {:induction false} LookupsAreRouted(c: Client, steps: seq<Step>, n: nat, objs: seq<GattObj>, device: Device1)
    requires n <= |steps| && Run(c, steps, n).state == ESTABLISHED
    requires UuidsValid(objs) && LowHandles(objs) && TreeUuidsValid(Tree(objs))
    requires RunHeard(steps, n, c.hosted, Heard(c.services, c.mtu, c.paired)).services == WithGap(Tree(objs))
    ensures Agrees(Run(c, steps, n).services, Index(Nodes(objs)), GapReads(Tree(objs), device)) <==> NoClash(objs)
  {
    EstablishedHoldsSnapshot(c, steps, n);
    IndexAgreesWithTree(objs, device);
  }

  // ----- states, pending disconnects and commands, from the events alone -----

  /** A pending disconnect survives until the client is disconnected. */
  predicate StillPending(pending: bool, evs: seq<HostEvent>, n: nat)
    requires n <= |evs|
  {
    pending && forall i :: 0 <= i < n ==> !evs[i].DisconnectedEvent?
  }

  /** The state the last deciding event leaves; CONNECTED with a disconnect pending means tearing down. */
  function StateAfter(state: ClientState, pending: bool, evs: seq<HostEvent>, n: nat): ClientState
    requires n <= |evs|
  {
    if n == 0 then state
    else match evs[n - 1]
      case ConnectedEvent => if StillPending(pending, evs, n - 1) then DISCONNECTING else CONNECTED
      case ServicesDiscoveredEvent(_, _) => ESTABLISHED
      case DisconnectedEvent(_) => IDLE
      case _ => StateAfter(state, pending, evs, n - 1)
  }

  /** A Disconnect for each CONNECTED that is heard with a disconnect pending. */
  function TeardownsUpTo(pending: bool, evs: seq<HostEvent>, n: nat): seq<HostCommand>
    requires n <= |evs|
  {
    if n == 0 then []
    else
      var torn := evs[n - 1].ConnectedEvent? && StillPending(pending, evs, n - 1);
      TeardownsUpTo(pending, evs, n - 1) + if torn then [DisconnectCommand] else []
  }

  lemma {:induction false} DispatchFollows(c: Client, evs: seq<HostEvent>, n: nat, now: nat)
    requires n <= |evs| && c.hosted
    ensures var d := DispatchUpTo(c, evs, n, now);
            && d.state == StateAfter(c.state, c.wantDisconnect, evs, n)
            && d.wantDisconnect == StillPending(c.wantDisconnect, evs, n)
            && d.commands == c.commands + TeardownsUpTo(c.wantDisconnect, evs, n)
            && d.connectingStarted == c.connectingStarted && d.hosted
  {
    if n > 0 {
      DispatchFollows(c, evs, n - 1, now);
      OneFollows(DispatchUpTo(c, evs, n - 1, now), evs[n - 1], now);
    }
  }

  lemma {:induction false} OneFollows(c: Client, e: HostEvent, now: nat)
    requires c.hosted
    ensures var d, torn := Dispatch(c, e, now), e.ConnectedEvent? && c.wantDisconnect;
            && d.state == (match e
                           case ConnectedEvent => if torn then DISCONNECTING else CONNECTED
                           case ServicesDiscoveredEvent(_, _) => ESTABLISHED
                           case DisconnectedEvent(_) => IDLE
                           case _ => c.state)
            && d.wantDisconnect == (c.wantDisconnect && !e.DisconnectedEvent?)
            && d.commands == c.commands + (if torn then [DisconnectCommand] else [])
            && d.connectingStarted == c.connectingStarted && d.hosted
  {
  }

  /** The connect attempt has run out at a clock reading, on the wrapping clock. */
  predicate ConnectExpired(c: Client, now: nat) {
    (now - c.connectingStarted) % 0x1_0000_0000 > 20000
  }

  lemma {:induction false} ElapsedIsDifference(now: nat, since: Uint32)
    ensures Elapsed(now, since) == (now - since) % 0x1_0000_0000
  {
    var q, r := now / WRAP, now % WRAP;
    assert now - since == q * WRAP + (r - since);
    if r >= since {
      assert (r - since) % WRAP == r - since;
    }
    ModuloShift(q, r - since);
  }

  lemma {:induction false} ModuloShift(q: nat, d: int)
    ensures (q * WRAP + d) % WRAP == d % WRAP
  {
    var k, r := d / WRAP, d % WRAP;
    assert q * WRAP + d == (q + k) * WRAP + r;
  }

  /** What a step makes the worker do. */
  function Queues(c: Client, step: Step): seq<HostCommand> {
    match step
    case ConnectStep(_) => [ConnectCommand]
    case DisconnectStep(_) => if c.hosted && c.state != IDLE && c.state != CONNECTING then [DisconnectCommand] else []
    case LoopStep(evs, t) =>
      if !c.hosted then []
      else
        var expired := StateAfter(c.state, c.wantDisconnect, evs, |evs|) == CONNECTING && ConnectExpired(c, t.connecting);
        TeardownsUpTo(c.wantDisconnect, evs, |evs|) + if expired then [DisconnectCommand] else []
    case _ => []
  }

  function QueuedUpTo(c: Client, steps: seq<Step>, n: nat): seq<HostCommand>
    requires n <= |steps|
  {
    if n == 0 then [] else QueuedUpTo(c, steps, n - 1) + Queues(Run(c, steps, n - 1), steps[n - 1])
  }

  lemma {:induction false} NextQueues(c: Client, step: Step)
    ensures Next(c, step).commands == c.commands + Queues(c, step)
  {
    if step.LoopStep? {
      var evs, t := step.events, step.times;
      if c.hosted {
        DispatchFollows(c, evs, |evs|, t.dispatch);
        ElapsedIsDifference(t.connecting, c.connectingStarted);
        ConcatAssociates(c.commands, TeardownsUpTo(c.wantDisconnect, evs, |evs|), [DisconnectCommand]);
      }
    }
  }

  /** In every run the worker is asked to connect once for each connect(), and to disconnect for each
      disconnect() of a client that is neither idle nor connecting, each CONNECTED that arrives with a
      disconnect pending, and each connect timeout; in that order, and for nothing else. */
  lemma {:induction false} CommandsFollowSteps(c: Client, steps: seq<Step>, n: nat)
    requires n <= |steps|
    ensures Run(c, steps, n).commands == c.commands + QueuedUpTo(c, steps, n)
  {
    if n > 0 {
      CommandsFollowSteps(c, steps, n - 1);
      NextQueues(Run(c, steps, n - 1), steps[n - 1]);
      ConcatAssociates(c.commands, QueuedUpTo(c, steps, n - 1), Queues(Run(c, steps, n - 1), steps[n - 1]));
    }
  }

  /** The state a loop leaves: that of the last deciding event, or IDLE when a timeout has passed. */
  lemma {:induction false} LoopState(c: Client, evs: seq<HostEvent>, t: Times)
    requires c.hosted
    ensures var s := StateAfter(c.state, c.wantDisconnect, evs, |evs|);
            var since := if Tears(c, evs, |evs|, t.dispatch) then t.dispatch else c.disconnectingStarted;
            Loop(c, evs, t).state ==
              if s == CONNECTING && ConnectExpired(c, t.connecting) then IDLE
              else if s == DISCONNECTING && (t.disconnecting - since) % 0x1_0000_0000 > 10000 then IDLE
              else s
  {
    DispatchFollows(c, evs, |evs|, t.dispatch);
    DispatchTimes(c, evs, |evs|, t.dispatch);
    ElapsedIsDifference(t.connecting, c.connectingStarted);
    var d := DispatchUpTo(c, evs, |evs|, t.dispatch);
    ElapsedIsDifference(t.disconnecting, d.disconnectingStarted);
    if Tears(c, evs, |evs|, t.dispatch) {
      MillisCongruent(t.disconnecting, t.dispatch);
    }
  }

  lemma {:induction false} MillisCongruent(now: nat, since: nat)
    ensures (now - Millis(since)) % 0x1_0000_0000 == (now - since) % 0x1_0000_0000
  {
    var q := since / WRAP;
    assert now - Millis(since) == q * WRAP + (now - since);
    ModuloShift(q, now - since);
  }

  /** The states a step other than a loop can lead to, and from which. */
  predicate Moves(before: ClientState, step: Step, after: ClientState) {
    match step
    case ConnectStep(_) => after == CONNECTING
    case DisconnectStep(_) => if before in {IDLE, CONNECTING} then after == before else after == DISCONNECTING
    case AdvertisementStep(autoConnect, matches, _) =>
      if before == IDLE && autoConnect && matches then after == DISCOVERED else after == before
    case ReserveStep(_) => after == INIT
    case RequestStep(_) => if before == INIT then after == DISCOVERED else after == before
    case CancelStep(_) => after == before
    case LoopStep(_, _) => true
  }

  /** A disconnect is pending after a step: it was requested while connecting, or was pending and
      neither cancelled nor made moot by being disconnected. */
  predicate PendingAfter(c: Client, step: Step, pending: bool) {
    match step
    case DisconnectStep(_) => pending == (c.wantDisconnect || c.state == CONNECTING)
    case CancelStep(_) => !pending
    case LoopStep(evs, _) => pending ==> c.wantDisconnect && (c.hosted ==> StillPending(true, evs, |evs|))
    case _ => pending == c.wantDisconnect
  }

  lemma {:induction false} StepOutcome(c: Client, step: Step)
    ensures Moves(c.state, step, Next(c, step).state) && PendingAfter(c, step, Next(c, step).wantDisconnect)
  {
    if step.LoopStep? && c.hosted {
      DispatchFollows(c, step.events, |step.events|, step.times.dispatch);
    }
  }

  /** A disconnect() while CONNECTING is not lost: when the link comes up it is torn down, and the
      worker is told. */
  lemma {:induction false} PendingDisconnectIsHonoured(c: Client, at: nat, t: Times)
    requires c.state == CONNECTING && c.hosted && t.dispatch <= t.disconnecting <= t.dispatch + 10000
    ensures var d := Next(Next(c, DisconnectStep(at)), LoopStep([ConnectedEvent], t));
            d.state == DISCONNECTING && d.commands == c.commands + [DisconnectCommand]
  {
    var w, evs := Next(c, DisconnectStep(at)), [ConnectedEvent];
    assert w.state == CONNECTING && w.wantDisconnect && w.hosted && w.commands == c.commands;
    assert TeardownsUpTo(true, evs, 0) == [] && StillPending(true, evs, 0);
    assert Tears(w, evs, 1, t.dispatch) by {
      assert DispatchUpTo(w, evs, 0, t.dispatch) == w;
    }
    LoopState(w, evs, t);
    NextQueues(w, LoopStep(evs, t));
  }

  // ----- timeouts -----

  /** When the last connect() and set_disconnecting_ really happened, and the last checks. */
  datatype Clock = Clock(connectAt: nat, disconnectAt: nat, connectCheck: nat, disconnectCheck: nat, now: nat)

  /** set_disconnecting_ runs while these events are dispatched. */
  predicate Tears(c: Client, evs: seq<HostEvent>, n: nat, now: nat)
    requires n <= |evs|
  {
    n > 0 && (Tears(c, evs, n - 1, now) || (evs[n - 1].ConnectedEvent? && DispatchUpTo(c, evs, n - 1, now).wantDisconnect))
  }

  function Tick(k: Clock, c: Client, step: Step): Clock {
    match step
    case ConnectStep(at) => k.(connectAt := at, now := at)
    case DisconnectStep(at) =>
      if c.state != IDLE && c.state != CONNECTING then k.(disconnectAt := at, now := at) else k.(now := at)
    case LoopStep(evs, t) =>
      var drained := if c.hosted then evs else [];
      Clock(k.connectAt, if Tears(c, drained, |drained|, t.dispatch) then t.dispatch else k.disconnectAt,
            t.connecting, t.disconnecting, t.disconnecting)
    case _ => k.(now := step.at)
  }

  function ClockAt(k: Clock, c: Client, steps: seq<Step>, n: nat): Clock
    requires n <= |steps|
  {
    if n == 0 then k else Tick(ClockAt(k, c, steps, n - 1), Run(c, steps, n - 1), steps[n - 1])
  }

  /** Time does not go back, and each check comes at most `gap` ms after the previous one. */
  predicate Punctual(k: Clock, step: Step, gap: nat) {
    match step
    case LoopStep(_, t) =>
      && k.now <= t.dispatch <= t.connecting <= t.disconnecting
      && t.connecting - k.connectCheck <= gap
      && t.disconnecting - k.disconnectCheck <= gap
    case _ => k.now <= step.at
  }

  ghost predicate PunctualRun(k: Clock, c: Client, steps: seq<Step>, n: nat, gap: nat)
    requires n <= |steps|
  {
    forall i :: 0 <= i < n ==> Punctual(ClockAt(k, c, steps, i), steps[i], gap)
  }

  /** The recorded start times are the true ones, and the last checks passed. */
  ghost predicate Timed(c: Client, k: Clock) {
    && k.connectCheck <= k.now && k.disconnectCheck <= k.now
    && (c.state == CONNECTING ==>
          && c.connectingStarted == Millis(k.connectAt) && k.connectAt <= k.now
          && k.connectCheck <= k.connectAt + CONNECT_TIMEOUT_MS)
    && (c.state == DISCONNECTING ==>
          && c.disconnectingStarted == Millis(k.disconnectAt) && k.disconnectAt <= k.now
          && k.disconnectCheck <= k.disconnectAt + DISCONNECT_TIMEOUT_MS)
  }

  lemma {:induction false} ElapsedIsTrue(now: nat, since: nat)
    requires since <= now < since + WRAP
    ensures Elapsed(now, Millis(since)) == now - since
  {
    var d := now - since;
    assert now % WRAP == (since % WRAP + d) % WRAP by {
    }
    var r := since % WRAP;
    if r + d < WRAP {
      assert (r + d) % WRAP == r + d;
    } else {
      assert (r + d) % WRAP == r + d - WRAP;
      assert (d - WRAP) % WRAP == d;
    }
  }

  lemma {:induction false} DispatchTimes(c: Client, evs: seq<HostEvent>, n: nat, now: nat)
    requires n <= |evs|
    ensures var d := DispatchUpTo(c, evs, n, now);
            && (d.state == CONNECTING ==> c.state == CONNECTING && d.connectingStarted == c.connectingStarted)
            && (Tears(c, evs, n, now) ==> d.disconnectingStarted == Millis(now))
            && (!Tears(c, evs, n, now) ==> d.disconnectingStarted == c.disconnectingStarted)
            && (!Tears(c, evs, n, now) && d.state == DISCONNECTING ==> c.state == DISCONNECTING)
  {
    if n > 0 {
      DispatchTimes(c, evs, n - 1, now);
    }
  }

  /** At the end of a loop: not connecting, or disconnecting, for longer than the timeout. */
  predicate WithinTimeouts(c: Client, k: Clock) {
    && (c.state == CONNECTING ==> k.connectCheck - k.connectAt <= CONNECT_TIMEOUT_MS)
    && (c.state == DISCONNECTING ==> k.disconnectCheck - k.disconnectAt <= DISCONNECT_TIMEOUT_MS)
  }

  lemma {:induction false} LoopWithinTimeouts(c: Client, k: Clock, evs: seq<HostEvent>, t: Times, gap: nat)
    requires Timed(c, k) && Punctual(k, LoopStep(evs, t), gap) && gap + CONNECT_TIMEOUT_MS < WRAP
    ensures var k' := Tick(k, c, LoopStep(evs, t));
            Timed(Loop(c, evs, t), k') && WithinTimeouts(Loop(c, evs, t), k')
  {
    var drained := if c.hosted then evs else [];
    var n := |drained|;
    DispatchTimes(c, drained, n, t.dispatch);
    var d := DispatchUpTo(c, drained, n, t.dispatch);
    if d.state == CONNECTING {
      ElapsedIsTrue(t.connecting, k.connectAt);
    } else if d.state == DISCONNECTING {
      var since := if Tears(c, drained, n, t.dispatch) then t.dispatch else k.disconnectAt;
      ElapsedIsTrue(t.disconnecting, since);
    }
  }

  lemma {:induction false} StepTimed(c: Client, k: Clock, step: Step, gap: nat)
    requires Timed(c, k) && Punctual(k, step, gap) && gap + CONNECT_TIMEOUT_MS < WRAP
    ensures Timed(Next(c, step), Tick(k, c, step))
    ensures step.LoopStep? ==> WithinTimeouts(Next(c, step), Tick(k, c, step))
  {
    if step.LoopStep? {
      LoopWithinTimeouts(c, k, step.events, step.times, gap);
    }
  }

  lemma {:induction false} RunTimed(c: Client, k: Clock, steps: seq<Step>, n: nat, gap: nat)
    requires n <= |steps| && Timed(c, k) && PunctualRun(k, c, steps, n, gap) && gap + CONNECT_TIMEOUT_MS < WRAP
    ensures Timed(Run(c, steps, n), ClockAt(k, c, steps, n))
    ensures n > 0 && steps[n - 1].LoopStep? ==> WithinTimeouts(Run(c, steps, n), ClockAt(k, c, steps, n))
  {
    if n > 0 {
      RunTimed(c, k, steps, n - 1, gap);
      assert Punctual(ClockAt(k, c, steps, n - 1), steps[n - 1], gap);
      StepTimed(Run(c, steps, n - 1), ClockAt(k, c, steps, n - 1), steps[n - 1], gap);
    }
  }

  /** A client set up at some time, neither connecting nor disconnecting. */
  predicate Starts(c: Client, k: Clock) {
    c.state in {INIT, IDLE} && k.connectCheck <= k.now && k.disconnectCheck <= k.now
  }

  /** Every run whose loops are at most `gap` ms apart respects both timeouts after every loop. */
  ghost predicate TimeoutsHold(gap: nat) {
    forall c: Client, k: Clock, steps: seq<Step>, n: nat ::
      Starts(c, k) && 0 < n <= |steps| && PunctualRun(k, c, steps, n, gap) && steps[n - 1].LoopStep?
      ==> WithinTimeouts(Run(c, steps, n), ClockAt(k, c, steps, n))
  }

  /** A loop that comes exactly one wrap after connect() sees no time elapsed. */
  lemma {:induction false} WrapHidesTimeout(c: Client, k: Clock, gap: nat) returns (steps: seq<Step>)
    requires c.state == INIT && k == Clock(0, 0, 0, 0, 0) && gap + CONNECT_TIMEOUT_MS >= WRAP
    ensures |steps| == 3 && PunctualRun(k, c, steps, 3, gap) && steps[2].LoopStep?
    ensures !WithinTimeouts(Run(c, steps, 3), ClockAt(k, c, steps, 3))
  {
    var first, late := Times(CONNECT_TIMEOUT_MS, CONNECT_TIMEOUT_MS, CONNECT_TIMEOUT_MS), Times(WRAP, WRAP, WRAP);
    steps := [ConnectStep(0), LoopStep([], first), LoopStep([], late)];
    var c1 := Connect(c, 0);
    var k1 := Tick(k, c, steps[0]);
    assert Run(c, steps, 0) == c && ClockAt(k, c, steps, 0) == k;
    assert Run(c, steps, 1) == c1 && ClockAt(k, c, steps, 1) == k1;
    assert Loop(c1, [], first) == c1;
    var k2 := Tick(k1, c1, steps[1]);
    assert Run(c, steps, 2) == c1 && ClockAt(k, c, steps, 2) == k2;
    assert Elapsed(WRAP, 0) == 0;
    assert Loop(c1, [], late) == c1;
    assert Run(c, steps, 3) == c1 && ClockAt(k, c, steps, 3) == Tick(k2, c1, steps[2]);
  }

  /** Both timeouts are respected on the wrapping clock, in every run, if and only if a gap
      between loops plus the connect timeout is less than one wrap. */
  lemma {:induction false} TimeoutsHoldIff(gap: nat)
    ensures TimeoutsHold(gap) <==> gap + CONNECT_TIMEOUT_MS < WRAP
  {
    if gap + CONNECT_TIMEOUT_MS < WRAP {
      forall c: Client, k: Clock, steps: seq<Step>, n: nat |
        Starts(c, k) && 0 < n <= |steps| && PunctualRun(k, c, steps, n, gap) && steps[n - 1].LoopStep?
        ensures WithinTimeouts(Run(c, steps, n), ClockAt(k, c, steps, n))
      {
        RunTimed(c, k, steps, n, gap);
      }
    } else {
      var c := Client(INIT, false, 0, 0, [], 23, false, false, []);
      var k := Clock(0, 0, 0, 0, 0);
      var steps := WrapHidesTimeout(c, k, gap);
      assert Starts(c, k);
    }
  }

  // ----- the client object -----

  class BleClientBase {
    var state: ClientState
    var wantDisconnect: bool
    var connectingStarted: Uint32
    var disconnectingStarted: Uint32
    var services: seq<DiscoveredService>
    var mtu: Uint16
    var paired: bool
    var hosted: bool
    var commands: seq<HostCommand>

    ghost function View(): Client
      reads this
    {
      Client(state, wantDisconnect, connectingStarted, disconnectingStarted, services, mtu, paired, hosted, commands)
    }

    constructor ()
      ensures View() == Client(IDLE, false, 0, 0, [], 23, false, false, []) && CleanWhenIdle(View())
    {
      state, wantDisconnect, connectingStarted, disconnectingStarted := IDLE, false, 0, 0;
      services, mtu, paired, hosted, commands := [], 23, false, false, [];
    }

    method ChangeState(st: ClientState)
      modifies this`state, this`wantDisconnect
      ensures View() == SetState(old(View()), st)
    {
      state := st;
      if st == IDLE {
        wantDisconnect := false;
      }
    }

    method StartConnect(now: nat)
      modifies this
      ensures View() == Connect(old(View()), now)
    {
      ChangeState(CONNECTING);
      connectingStarted := Millis(now);
      if !hosted {
        hosted := true;
      }
      commands := commands + [ConnectCommand];
    }

    method TearDown(now: nat)
      modifies this
      ensures View() == UnconditionalDisconnect(old(View()), now)
    {
      disconnectingStarted := Millis(now);
      ChangeState(DISCONNECTING);
      if hosted {
        commands := commands + [DisconnectCommand];
      }
    }

    method StartDisconnect(now: nat)
      modifies this
      ensures View() == Disconnect(old(View()), now)
    {
      if state == IDLE {
        return;
      }
      if state == CONNECTING {
        wantDisconnect := true;
        return;
      }
      TearDown(now);
    }

    method DispatchEvent(ev: HostEvent, now: nat)
      modifies this
      ensures View() == Dispatch(old(View()), ev, now)
    {
      match ev {
        case ConnectedEvent =>
          if wantDisconnect {
            TearDown(now);
          } else {
            ChangeState(CONNECTED);
          }
        case ServicesDiscoveredEvent(snapshot, newMtu) =>
          mtu := newMtu;
          services := RebuildTree(snapshot);
          ChangeState(ESTABLISHED);
        case DisconnectedEvent(_) =>
          services := [];
          ChangeState(IDLE);
        case PairingCompleteEvent(success) =>
          paired := success;
        case OtherEvent =>
      }
    }

    method RunLoop(events: seq<HostEvent>, t: Times)
      modifies this
      ensures View() == Loop(old(View()), events, t)
    {
      ghost var c := View();
      ghost var drained := if hosted then events else [];
      if hosted {
        for i := 0 to |events|
          invariant View() == DispatchUpTo(c, events, i, t.dispatch)
        {
          DispatchEvent(events[i], t.dispatch);
        }
      }
      if state == CONNECTING && Elapsed(t.connecting, connectingStarted) > CONNECT_TIMEOUT_MS {
        if hosted {
          commands := commands + [DisconnectCommand];
        }
        DispatchEvent(DisconnectedEvent(0x93), t.connecting);
      }
      if state == DISCONNECTING && Elapsed(t.disconnecting, disconnectingStarted) > DISCONNECT_TIMEOUT_MS {
        DispatchEvent(DisconnectedEvent(0x93), t.disconnecting);
      }
    }

    method OnAdvertisement(autoConnect: bool, matches: bool)
      modifies this`state, this`wantDisconnect
      ensures View() == ParseDevice(old(View()), autoConnect, matches)
    {
      if !matches {
        return;
      }
      if state == IDLE && autoConnect {
        ChangeState(DISCOVERED);
      }
    }
  }
}
