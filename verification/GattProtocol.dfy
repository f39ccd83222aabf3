/**
  * The GATT client's two-thread protocol (components/esp32_ble_client/ble_gatt_host.cpp): the
  * main thread enqueues commands and drains events, the worker swaps the command queue out,
  * serves the commands one by one and posts events. Both queues are only touched under their
  * mutex, so a run is a sequence of the atomic steps below in any order.
  */
module GattProtocol {
  import opened Common
  import opened Discovery

  const GATT_OK := 0x00
  const GATT_INVALID_HANDLE := 0x01
  const GATT_ERROR := 0x85

  datatype Command =
    | Connect | Disconnect
    | ReadChar(handle: Uint16) | ReadDesc(handle: Uint16)
    | WriteChar(handle: Uint16, data: seq<Byte>, response: bool) | WriteDesc(handle: Uint16, data: seq<Byte>, response: bool)
    | SetNotify(handle: Uint16, enable: bool)
    | ReadRssi | Pair | PasskeyReply(passkey: Uint32) | ConfirmReply(accept: bool) | RemoveBond

  /** Events that are not the answer to one command; several may arrive for any reason. */
  datatype SignalKind =
    | CONNECTED | DISCONNECTED | SERVICES_DISCOVERED | NOTIFY
    | PASSKEY_REQUEST | PASSKEY_NOTIFY | NUMERIC_COMPARE | PAIRING_COMPLETE

  datatype Event =
    | ReadComplete(handle: Uint16, status: int, data: seq<Byte>)
    | DescRead(handle: Uint16, status: int, data: seq<Byte>)
    | WriteComplete(handle: Uint16, status: int)
    | DescWrite(handle: Uint16, status: int)
    | NotifyRegistered(handle: Uint16, status: int)
    | Rssi(rssi: int)
    | Signal(kind: SignalKind)

  /** BlueZ's answer to a blocking call; nothing is known about it. */
  datatype Reply = Reply(ok: bool, data: seq<Byte>, rssi: int)

  datatype Routing = Routing(handleMap: HandleMap, synthetic: map<Uint16, seq<Byte>>)

  // ----- which answer belongs to which command -----

  datatype Key = ReadKey(handle: Uint16) | DescReadKey(handle: Uint16) | WriteKey(handle: Uint16)
               | DescWriteKey(handle: Uint16) | NotifyKey(handle: Uint16) | RssiKey

  /** The answer a command must get; the connection-level commands have none. */
  function Owed(c: Command): seq<Key> {
    match c
    case ReadChar(h) => [ReadKey(h)]
    case ReadDesc(h) => [DescReadKey(h)]
    case WriteChar(h, _, _) => [WriteKey(h)]
    case WriteDesc(h, _, _) => [DescWriteKey(h)]
    case SetNotify(h, _) => [NotifyKey(h)]
    case ReadRssi => [RssiKey]
    case _ => []
  }

  function Given(e: Event): seq<Key> {
    match e
    case ReadComplete(h, _, _) => [ReadKey(h)]
    case DescRead(h, _, _) => [DescReadKey(h)]
    case WriteComplete(h, _) => [WriteKey(h)]
    case DescWrite(h, _) => [DescWriteKey(h)]
    case NotifyRegistered(h, _) => [NotifyKey(h)]
    case Rssi(_) => [RssiKey]
    case Signal(_) => []
  }

  function AllOwed(cs: seq<Command>): seq<Key> {
    Collected(Owed, cs, |cs|)
  }

  function AllGiven(es: seq<Event>): seq<Key> {
    Collected(Given, es, |es|)
  }

  lemma {:induction false} Singles(c: Command, e: Event)
    ensures AllOwed([c]) == Owed(c) && AllGiven([e]) == Given(e)
  {
    assert Collected(Owed, [c], 1) == Collected(Owed, [c], 0) + Owed(c);
    assert Collected(Given, [e], 1) == Collected(Given, [e], 0) + Given(e);
  }

  // ----- how the worker answers -----

  /** Answers decided without calling BlueZ: cached GAP values and unroutable handles. */
  function Immediate(r: Routing, c: Command): Option<Event> {
    match c
    case ReadChar(h) =>
      if h in r.synthetic then Some(ReadComplete(h, GATT_OK, r.synthetic[h]))
      else if h !in r.handleMap then Some(ReadComplete(h, GATT_INVALID_HANDLE, []))
      else None
    case ReadDesc(h) => if h !in r.handleMap then Some(DescRead(h, GATT_INVALID_HANDLE, [])) else None
    case WriteChar(h, _, _) => if h !in r.handleMap then Some(WriteComplete(h, GATT_INVALID_HANDLE)) else None
    case WriteDesc(h, _, _) => if h !in r.handleMap then Some(DescWrite(h, GATT_INVALID_HANDLE)) else None
    case SetNotify(h, _) =>
      if h !in r.handleMap || r.handleMap[h].kind != CharEntry then Some(NotifyRegistered(h, GATT_INVALID_HANDLE)) else None
    case _ => None
  }

  function Status(reply: Reply): int {
    if reply.ok then GATT_OK else GATT_ERROR
  }

  function Payload(reply: Reply): seq<Byte> {
    if reply.ok then reply.data else []
  }

  /** The answer once BlueZ has replied; other events of the call arrive as signals. */
  function FromReply(c: Command, reply: Reply): seq<Event> {
    match c
    case ReadChar(h) => [ReadComplete(h, Status(reply), Payload(reply))]
    case ReadDesc(h) => [DescRead(h, Status(reply), Payload(reply))]
    case WriteChar(h, _, _) => [WriteComplete(h, Status(reply))]
    case WriteDesc(h, _, _) => [DescWrite(h, Status(reply))]
    case SetNotify(h, _) => [NotifyRegistered(h, Status(reply))]
    case ReadRssi => [Rssi(if reply.ok then SignedByte(reply.rssi % 256) else 0)]
    case _ => []
  }

  function Answer(immediate: Option<Event>, c: Command, reply: Reply): seq<Event> {
    if immediate.Some? then [immediate.value] else FromReply(c, reply)
  }

  lemma {:induction false} ImmediatePays(r: Routing, c: Command)
    ensures Immediate(r, c).Some? ==> Given(Immediate(r, c).value) == Owed(c)
  {
  }

  lemma {:induction false} AnswerPays(immediate: Option<Event>, c: Command, reply: Reply)
    requires immediate.Some? ==> Given(immediate.value) == Owed(c)
    ensures AllGiven(Answer(immediate, c, reply)) == Owed(c)
  {
    var a := Answer(immediate, c, reply);
    if a != [] {
      Singles(c, a[0]);
    }
  }

  // ----- what the answer to a command says -----

  /** A handle the worker does not know is invalid; otherwise the status tells how the call went. */
  predicate StatusIs(status: int, routable: bool, ok: bool) {
    status == if !routable then 0x01 else if ok then 0x00 else 0x85
  }

  /** Bytes come only from a good reply to a call that was made. */
  predicate DataIs(data: seq<Byte>, routable: bool, reply: Reply) {
    data == if routable && reply.ok then reply.data else []
  }

  /** The event tells the outcome of the command: an unknown handle, the bytes cached at discovery,
      or what BlueZ replied. */
  predicate Answers(e: Event, c: Command, r: Routing, reply: Reply) {
    match c
    case ReadChar(h) =>
      && e.ReadComplete? && e.handle == h
      && if h in r.synthetic then e.status == 0x00 && e.data == r.synthetic[h]
         else StatusIs(e.status, h in r.handleMap, reply.ok) && DataIs(e.data, h in r.handleMap, reply)
    case ReadDesc(h) =>
      && e.DescRead? && e.handle == h
      && StatusIs(e.status, h in r.handleMap, reply.ok) && DataIs(e.data, h in r.handleMap, reply)
    case WriteChar(h, _, _) => e.WriteComplete? && e.handle == h && StatusIs(e.status, h in r.handleMap, reply.ok)
    case WriteDesc(h, _, _) => e.DescWrite? && e.handle == h && StatusIs(e.status, h in r.handleMap, reply.ok)
    case SetNotify(h, _) =>
      && e.NotifyRegistered? && e.handle == h
      && StatusIs(e.status, h in r.handleMap && r.handleMap[h].kind == CharEntry, reply.ok)
    case ReadRssi =>
      && e.Rssi?
      && if reply.ok then -128 <= e.rssi < 128 && (reply.rssi - e.rssi) % 256 == 0 else e.rssi == 0
    case _ => false
  }

  /** The commands that get an answer at all. */
  predicate Answerable(c: Command) {
    c.ReadChar? || c.ReadDesc? || c.WriteChar? || c.WriteDesc? || c.SetNotify? || c.ReadRssi?
  }

  lemma {:induction false} AnswerAnswers(r: Routing, c: Command, reply: Reply)
    ensures var a := Answer(Immediate(r, c), c, reply);
            if Answerable(c) then |a| == 1 && !a[0].Signal? && Answers(a[0], c, r, reply) else a == []
  {
  }

  // ----- the interleaved machine -----

  /** A command being served, with the handle maps as they were when it was looked up. */
  datatype InFlight = InFlight(command: Command, routing: Routing)

  /** A command that has been served: the handle maps at its look-up and BlueZ's reply. */
  datatype Service = Service(command: Command, routing: Routing, reply: Reply)

  datatype State = State(
    commands: seq<Command>,      // the shared command queue
    events: seq<Event>,          // the shared event queue
    batch: seq<Command>,         // swapped out by the worker, not served yet
    current: Option<InFlight>,   // being served, possibly inside a blocking call
    routing: Routing,            // worker-only handle maps
    taken: seq<Command>,         // every command the worker has swapped out so far
    finished: seq<Service>,      // every command it has served so far
    received: seq<Event>)        // everything the main thread has drained

  datatype Step =
    | Enqueue(command: Command)
    | Drain
    | Swap
    | Begin
    | Finish(reply: Reply)
    | Post(kind: SignalKind)       // a bus signal, also from inside a blocking call
    | Reroute(routing: Routing)    // discovery or disconnection rewrote the handle maps

  const INITIAL := State([], [], [], None, Routing(map[], map[]), [], [], [])

  predicate Enabled(s: State, step: Step) {
    match step
    case Swap => s.batch == [] && s.current.None?
    case Begin => s.batch != [] && s.current.None?
    case Finish(_) => s.current.Some?
    case _ => true
  }

  /** One step; a step that is not enabled does not happen. */
  function Next(s: State, step: Step): State {
    if !Enabled(s, step) then s
    else match step
      case Enqueue(c) => s.(commands := s.commands + [c])
      case Drain => s.(received := s.received + s.events, events := [])
      case Swap => s.(batch := s.commands, taken := s.taken + s.commands, commands := [])
      case Begin => s.(current := Some(InFlight(s.batch[0], s.routing)), batch := s.batch[1..])
      case Finish(reply) =>
        var f := s.current.value;
        s.(events := s.events + Answer(Immediate(f.routing, f.command), f.command, reply), current := None,
           finished := s.finished + [Service(f.command, f.routing, reply)])
      case Post(k) => s.(events := s.events + [Signal(k)])
      case Reroute(r) => s.(routing := r)
  }

  function Run(s: State, steps: seq<Step>): State
    decreases |steps|
  {
    if steps == [] then s else Run(Next(s, steps[0]), steps[1..])
  }

  /** What the main thread asked for, in order. */
  function Issued(steps: seq<Step>): seq<Command> {
    if steps == [] then [] else IssuedBy(steps[0]) + Issued(steps[1..])
  }

  function InService(s: State): seq<Command> {
    (if s.current.Some? then [s.current.value.command] else []) + s.batch
  }

  /** The answers given so far are those owed for the commands taken, except the ones in
      service; they are given in order, each exactly once. */
  ghost predicate Accounted(s: State) {
    AllGiven(s.received + s.events) + AllOwed(InService(s)) == AllOwed(s.taken)
  }

  lemma {:induction false} PostAll(received: seq<Event>, events: seq<Event>, a: seq<Event>)
    ensures AllGiven(received + (events + a)) == AllGiven(received + events) + AllGiven(a)
  {
    assert received + (events + a) == (received + events) + a;
    CollectedConcat(Given, received + events, a);
  }

  lemma {:induction false} Posted(received: seq<Event>, events: seq<Event>, k: SignalKind)
    ensures AllGiven(received + (events + [Signal(k)])) == AllGiven(received + events)
  {
    PostAll(received, events, [Signal(k)]);
    Singles(Connect, Signal(k));
  }

  lemma {:induction false} Finished(received: seq<Event>, events: seq<Event>, a: seq<Event>, c: Command, batch: seq<Command>, taken: seq<Command>)
    requires AllGiven(a) == Owed(c)
    requires AllGiven(received + events) + AllOwed([c] + batch) == AllOwed(taken)
    ensures AllGiven(received + (events + a)) + AllOwed(batch) == AllOwed(taken)
  {
    PostAll(received, events, a);
    Singles(c, Signal(CONNECTED));
    CollectedConcat(Owed, [c], batch);
    ConcatAssociates(AllGiven(received + events), Owed(c), AllOwed(batch));
  }

  lemma {:induction false} Swapped(given: seq<Key>, taken: seq<Command>, commands: seq<Command>)
    requires given == AllOwed(taken)
    ensures given + AllOwed(commands) == AllOwed(taken + commands)
  {
    CollectedConcat(Owed, taken, commands);
  }

  lemma {:induction false} FinishAccounted(s: State, reply: Reply)
    requires Accounted(s) && s.current.Some?
    ensures Accounted(Next(s, Finish(reply)))
  {
    var f := s.current.value;
    ImmediatePays(f.routing, f.command);
    AnswerPays(Immediate(f.routing, f.command), f.command, reply);
    Finished(s.received, s.events, Answer(Immediate(f.routing, f.command), f.command, reply), f.command, s.batch, s.taken);
    assert InService(Next(s, Finish(reply))) == s.batch;
  }

  lemma {:induction false} BeginAccounted(s: State)
    requires Accounted(s) && Enabled(s, Begin)
    ensures Accounted(Next(s, Begin))
  {
    assert InService(s) == s.batch && InService(Next(s, Begin)) == s.batch;
  }

  lemma {:induction false} SwapAccounted(s: State)
    requires Accounted(s) && Enabled(s, Swap)
    ensures Accounted(Next(s, Swap))
  {
    assert InService(s) == [] && InService(Next(s, Swap)) == s.commands;
    assert AllGiven(s.received + s.events) + [] == AllGiven(s.received + s.events);
    Swapped(AllGiven(s.received + s.events), s.taken, s.commands);
  }

  lemma {:induction false} DrainAccounted(s: State)
    requires Accounted(s)
    ensures Accounted(Next(s, Drain))
  {
    assert (s.received + s.events) + [] == s.received + s.events;
  }

  lemma {:induction false} StepAccounted(s: State, step: Step)
    requires Accounted(s)
    ensures Accounted(Next(s, step))
  {
    if Enabled(s, step) {
      match step
      case Finish(reply) => FinishAccounted(s, reply);
      case Begin => BeginAccounted(s);
      case Swap => SwapAccounted(s);
      case Drain => DrainAccounted(s);
      case Post(k) =>
        Posted(s.received, s.events, k);
        assert InService(Next(s, step)) == InService(s);
      case Enqueue(c) =>
      case Reroute(r) =>
    }
  }

  lemma {:induction false} RunAccounted(s: State, steps: seq<Step>)
    requires Accounted(s)
    ensures Accounted(Run(s, steps))
    decreases |steps|
  {
    if steps != [] {
      StepAccounted(s, steps[0]);
      RunAccounted(Next(s, steps[0]), steps[1..]);
    }
  }

  function IssuedBy(step: Step): seq<Command> {
    if step.Enqueue? then [step.command] else []
  }

  lemma {:induction false} StepIssues(s: State, step: Step)
    ensures Next(s, step).taken + Next(s, step).commands == (s.taken + s.commands) + IssuedBy(step)
  {
  }

  lemma {:induction false} RunIssues(s: State, steps: seq<Step>)
    ensures Run(s, steps).taken + Run(s, steps).commands == (s.taken + s.commands) + Issued(steps)
    decreases |steps|
  {
    if steps != [] {
      var t := Next(s, steps[0]);
      StepIssues(s, steps[0]);
      RunIssues(t, steps[1..]);
      ConcatAssociates(s.taken + s.commands, IssuedBy(steps[0]), Issued(steps[1..]));
    }
  }

  /** Exactly-once completion, for every interleaving. The answers posted are, in order and
      with kind and handle, those of the commands the worker has taken, up to the ones it is
      still serving; the commands taken and queued are those issued, in order; so answered,
      in service and queued add up to everything issued. */
  lemma {:induction false} ExactlyOnce(steps: seq<Step>)
    ensures var s := Run(INITIAL, steps);
            && AllGiven(s.received + s.events) + AllOwed(InService(s)) == AllOwed(s.taken)
            && s.taken + s.commands == Issued(steps)
            && |AllGiven(s.received + s.events)| + |AllOwed(InService(s))| + |AllOwed(s.commands)| == |AllOwed(Issued(steps))|
  {
    RunAccounted(INITIAL, steps);
    RunIssues(INITIAL, steps);
    var s := Run(INITIAL, steps);
    CollectedConcat(Owed, s.taken, s.commands);
  }

  /** Once both queues and the worker are idle, the main thread has every answer exactly once. */
  lemma {:induction false} QuiescentIsComplete(steps: seq<Step>)
    requires var s := Run(INITIAL, steps); s.commands == [] && s.events == [] && InService(s) == []
    ensures AllGiven(Run(INITIAL, steps).received) == AllOwed(Issued(steps))
  {
    ExactlyOnce(steps);
    var s := Run(INITIAL, steps);
    assert s.received + s.events == s.received;
    assert s.taken + s.commands == s.taken;
    assert AllGiven(s.received) + AllOwed([]) == AllGiven(s.received);
  }

  // ----- every answer tells its command's outcome -----

  function NotSignal(e: Event): seq<Event> {
    if e.Signal? then [] else [e]
  }

  /** The answers among the events, in order. */
  function AnswersIn(es: seq<Event>): seq<Event> {
    Collected(NotSignal, es, |es|)
  }

  function IfAnswerable(v: Service): seq<Service> {
    if Answerable(v.command) then [v] else []
  }

  function AnswerableOf(vs: seq<Service>): seq<Service> {
    Collected(IfAnswerable, vs, |vs|)
  }

  function CommandOf(v: Service): seq<Command> {
    [v.command]
  }

  function CommandsOf(vs: seq<Service>): seq<Command> {
    Collected(CommandOf, vs, |vs|)
  }

  /** One answer for each answerable command served, in order. */
  ghost predicate Matches(es: seq<Event>, vs: seq<Service>) {
    |es| == |vs| && forall i :: 0 <= i < |es| ==> Answers(es[i], vs[i].command, vs[i].routing, vs[i].reply)
  }

  ghost predicate Told(s: State) {
    && Matches(AnswersIn(s.received + s.events), AnswerableOf(s.finished))
    && CommandsOf(s.finished) + InService(s) == s.taken
  }

  lemma {:induction false} AnswersPosted(received: seq<Event>, events: seq<Event>, a: seq<Event>)
    requires |a| <= 1
    ensures AnswersIn(received + (events + a)) == AnswersIn(received + events) + if a == [] then [] else NotSignal(a[0])
  {
    assert received + (events + a) == (received + events) + a;
    CollectedConcat(NotSignal, received + events, a);
    if a != [] {
      assert Collected(NotSignal, a, 1) == Collected(NotSignal, a, 0) + NotSignal(a[0]);
    }
  }

  lemma {:induction false} ServiceAdded(vs: seq<Service>, v: Service)
    ensures AnswerableOf(vs + [v]) == AnswerableOf(vs) + IfAnswerable(v)
    ensures CommandsOf(vs + [v]) == CommandsOf(vs) + [v.command]
  {
    CollectedPrefix(IfAnswerable, vs, [v], |vs|);
    CollectedPrefix(CommandOf, vs, [v], |vs|);
  }

  lemma {:induction false} FinishTold(s: State, reply: Reply)
    requires Told(s) && s.current.Some?
    ensures Told(Next(s, Finish(reply)))
  {
    var f := s.current.value;
    AnswerAnswers(f.routing, f.command, reply);
    AnswersPosted(s.received, s.events, Answer(Immediate(f.routing, f.command), f.command, reply));
    ServiceAdded(s.finished, Service(f.command, f.routing, reply));
    assert InService(s) == [f.command] + s.batch && InService(Next(s, Finish(reply))) == s.batch;
    ConcatAssociates(CommandsOf(s.finished), [f.command], s.batch);
  }

  lemma {:induction false} StepTold(s: State, step: Step)
    requires Told(s)
    ensures Told(Next(s, step))
  {
    if Enabled(s, step) {
      match step
      case Finish(reply) => FinishTold(s, reply);
      case Begin => assert InService(s) == s.batch == InService(Next(s, step));
      case Swap => assert InService(s) == [] && InService(Next(s, step)) == s.commands;
      case Drain => assert (s.received + s.events) + [] == s.received + s.events;
      case Post(k) => AnswersPosted(s.received, s.events, [Signal(k)]);
      case Enqueue(c) =>
      case Reroute(r) =>
    }
  }

  lemma {:induction false} RunTold(s: State, steps: seq<Step>)
    requires Told(s)
    ensures Told(Run(s, steps))
    decreases |steps|
  {
    if steps != [] {
      StepTold(s, steps[0]);
      RunTold(Next(s, steps[0]), steps[1..]);
    }
  }

  /** For every interleaving: the commands served are those taken, in order, less the ones still
      in service; and the i-th answer posted tells the outcome of the i-th answerable command
      served, by the handle maps at its look-up and the reply it got. */
  lemma {:induction false} AnswersTellOutcomes(steps: seq<Step>)
    ensures var s := Run(INITIAL, steps);
            && CommandsOf(s.finished) + InService(s) == s.taken
            && Matches(AnswersIn(s.received + s.events), AnswerableOf(s.finished))
  {
    RunTold(INITIAL, steps);
  }

  // ----- the host object -----

  /** What one blocking call lets happen: the signals it dispatches meanwhile, the handle maps
      they leave behind, and the reply. */
  datatype Call = Call(signals: seq<SignalKind>, routing: Routing, reply: Reply)

  function Signals(ks: seq<SignalKind>): (es: seq<Event>)
    ensures |es| == |ks|
  {
    seq(|ks|, i requires 0 <= i < |ks| => Signal(ks[i]))
  }

  /** Everything posted while a command is served. */
  function Served(r: Routing, c: Command, call: Call): seq<Event> {
    var immediate := Immediate(r, c);
    if immediate.Some? then [immediate.value] else Signals(call.signals) + FromReply(c, call.reply)
  }

  /** The handle maps once a command has been served. */
  function Reroutes(r: Routing, c: Command, call: Call): Routing {
    if Immediate(r, c).Some? then r else call.routing
  }

  lemma {:induction false} SignalsGiveNothing(ks: seq<SignalKind>, n: nat)
    requires n <= |ks|
    ensures Collected(Given, Signals(ks), n) == []
  {
    if n > 0 {
      SignalsGiveNothing(ks, n - 1);
    }
  }

  lemma {:induction false} ServedPays(r: Routing, c: Command, call: Call)
    ensures AllGiven(Served(r, c, call)) == Owed(c)
  {
    ImmediatePays(r, c);
    AnswerPays(Immediate(r, c), c, call.reply);
    SignalsGiveNothing(call.signals, |call.signals|);
    CollectedConcat(Given, Signals(call.signals), FromReply(c, call.reply));
    assert [] + Owed(c) == Owed(c);
  }

  /** The answer is the last event posted, and it tells the outcome. */
  lemma {:induction false} ServedAnswers(before: seq<Event>, r: Routing, c: Command, call: Call)
    requires Answerable(c)
    ensures Answered(before + Served(r, c, call), c, r, call.reply)
  {
    AnswerAnswers(r, c, call.reply);
  }

  predicate Answered(events: seq<Event>, c: Command, r: Routing, reply: Reply) {
    events != [] && Answers(events[|events| - 1], c, r, reply)
  }

  class GattHost {
    var commands: seq<Command>
    var events: seq<Event>
    var handleMap: HandleMap
    var syntheticReads: map<Uint16, seq<Byte>>
    var notifySubs: map<string, Uint16>

    constructor ()
      ensures commands == [] && events == [] && handleMap == map[] && syntheticReads == map[] && notifySubs == map[]
    {
      commands, events, handleMap, syntheticReads, notifySubs := [], [], map[], map[], map[];
    }

    ghost function View(): Routing
      reads this
    {
      Routing(handleMap, syntheticReads)
    }

    method EnqueueCommand(c: Command)
      modifies this`commands
      ensures commands == old(commands) + [c]
    {
      commands := commands + [c];
    }

    method DrainEvents() returns (out: seq<Event>)
      modifies this`events
      ensures out == old(events) && events == []
    {
      out := [];
      out, events := events, out;
    }

    method PostEvent(e: Event)
      modifies this`events
      ensures events == old(events) + [e]
    {
      events := events + [e];
    }

    /** A blocking sd-bus call pumps the bus: signal handlers run before the reply arrives. */
    method BlockingCall(call: Call)
      modifies this`events, this`handleMap, this`syntheticReads
      ensures events == old(events) + Signals(call.signals) && View() == call.routing
    {
      ghost var before := events;
      for i := 0 to |call.signals|
        invariant events == before + Signals(call.signals)[..i]
      {
        PostEvent(Signal(call.signals[i]));
      }
      handleMap := call.routing.handleMap;
      syntheticReads := call.routing.synthetic;
    }

    method DoRead(handle: Uint16, isDesc: bool, call: Call)
      modifies this`events, this`handleMap, this`syntheticReads
      ensures var c := if isDesc then ReadDesc(handle) else ReadChar(handle);
              && events == old(events) + Served(old(View()), c, call)
              && Answered(events, c, old(View()), call.reply)
              && View() == Reroutes(old(View()), c, call)
    {
      ServedAnswers(events, View(), if isDesc then ReadDesc(handle) else ReadChar(handle), call);
      if !isDesc && handle in syntheticReads {
        PostEvent(ReadComplete(handle, GATT_OK, syntheticReads[handle]));
        return;
      }
      if handle !in handleMap {
        PostEvent(if isDesc then DescRead(handle, GATT_INVALID_HANDLE, []) else ReadComplete(handle, GATT_INVALID_HANDLE, []));
        return;
      }
      BlockingCall(call);
      var status, data := GATT_OK, call.reply.data;
      if !call.reply.ok {
        status, data := GATT_ERROR, [];
      }
      PostEvent(if isDesc then DescRead(handle, status, data) else ReadComplete(handle, status, data));
    }

    method DoWrite(handle: Uint16, data: seq<Byte>, response: bool, isDesc: bool, call: Call)
      modifies this`events, this`handleMap, this`syntheticReads
      ensures var c := if isDesc then WriteDesc(handle, data, response) else WriteChar(handle, data, response);
              && events == old(events) + Served(old(View()), c, call)
              && Answered(events, c, old(View()), call.reply)
              && View() == Reroutes(old(View()), c, call)
    {
      ServedAnswers(events, View(), if isDesc then WriteDesc(handle, data, response) else WriteChar(handle, data, response), call);
      if handle !in handleMap {
        PostEvent(if isDesc then DescWrite(handle, GATT_INVALID_HANDLE) else WriteComplete(handle, GATT_INVALID_HANDLE));
        return;
      }
      BlockingCall(call);
      var status := if call.reply.ok then GATT_OK else GATT_ERROR;
      PostEvent(if isDesc then DescWrite(handle, status) else WriteComplete(handle, status));
    }

    method DoSetNotify(handle: Uint16, enable: bool, call: Call)
      modifies this`events, this`handleMap, this`syntheticReads, this`notifySubs
      ensures var c := SetNotify(handle, enable);
              && events == old(events) + Served(old(View()), c, call)
              && Answered(events, c, old(View()), call.reply)
              && View() == Reroutes(old(View()), c, call)
      ensures notifySubs ==
              if handle !in old(handleMap) || old(handleMap)[handle].kind != CharEntry || !call.reply.ok then old(notifySubs)
              else var path := old(handleMap)[handle].path;
                if !enable then old(notifySubs) - {path}
                else if path in old(notifySubs) then old(notifySubs)
                else old(notifySubs)[path := handle]
    {
      ServedAnswers(events, View(), SetNotify(handle, enable), call);
      if handle !in handleMap || handleMap[handle].kind != CharEntry {
        PostEvent(NotifyRegistered(handle, GATT_INVALID_HANDLE));
        return;
      }
      var path := handleMap[handle].path;
      BlockingCall(call);
      if call.reply.ok {
        if enable {
          if path !in notifySubs {
            notifySubs := notifySubs[path := handle];
          }
        } else {
          notifySubs := notifySubs - {path};
        }
      }
      PostEvent(NotifyRegistered(handle, if call.reply.ok then GATT_OK else GATT_ERROR));
    }

    method DoReadRssi(call: Call)
      modifies this`events, this`handleMap, this`syntheticReads
      ensures events == old(events) + Served(old(View()), ReadRssi, call) && View() == call.routing
      ensures Answered(events, ReadRssi, old(View()), call.reply)
    {
      ServedAnswers(events, View(), ReadRssi, call);
      var rssi := 0;
      BlockingCall(call);
      if call.reply.ok {
        rssi := SignedByte(call.reply.rssi % 256);
      }
      PostEvent(Rssi(rssi));
    }

    /** The dispatcher's switch. The connection-level commands only cause signals. */
    method Serve(c: Command, call: Call)
      modifies this`events, this`handleMap, this`syntheticReads, this`notifySubs
      ensures events == old(events) + Served(old(View()), c, call)
      ensures Answerable(c) ==> Answered(events, c, old(View()), call.reply)
      ensures View() == Reroutes(old(View()), c, call)
    {
      match c {
        case ReadChar(h) => DoRead(h, false, call);
        case ReadDesc(h) => DoRead(h, true, call);
        case WriteChar(h, data, response) => DoWrite(h, data, response, false, call);
        case WriteDesc(h, data, response) => DoWrite(h, data, response, true, call);
        case SetNotify(h, enable) => DoSetNotify(h, enable, call);
        case ReadRssi => DoReadRssi(call);
        case Connect => BlockingCall(call);
        case Disconnect => BlockingCall(call);
        case Pair => BlockingCall(call);
        case PasskeyReply(_) => BlockingCall(call);
        case ConfirmReply(_) => BlockingCall(call);
        case RemoveBond => BlockingCall(call);
      }
    }

    /** Serving a command adds to the event queue the one answer it is owed, if any. */
    method ServeOnce(c: Command, call: Call)
      modifies this`events, this`handleMap, this`syntheticReads, this`notifySubs
      ensures old(events) <= events
      ensures AllGiven(events) == AllGiven(old(events)) + Owed(c)
    {
      ghost var r, before := View(), events;
      Serve(c, call);
      ServedPays(r, c, call);
      CollectedConcat(Given, before, Served(r, c, call));
    }

    /** One pass of the worker takes every queued command and answers each, in order, exactly
        once, whatever signals are dispatched meanwhile and however they rewrite the maps. */
    method WorkerProcessCommands(calls: seq<Call>)
      requires |calls| == |commands|
      modifies this
      ensures commands == []
      ensures old(events) <= events
      ensures AllGiven(events) == AllGiven(old(events)) + AllOwed(old(commands))
    {
      var cmds := commands;
      commands := [];
      for i := 0 to |cmds|
        invariant commands == []
        invariant old(events) <= events
        invariant AllGiven(events) == AllGiven(old(events)) + Collected(Owed, cmds, i)
      {
        ServeOnce(cmds[i], calls[i]);
        ConcatAssociates(AllGiven(old(events)), Collected(Owed, cmds, i), Owed(cmds[i]));
      }
    }
  }
}
