/**
  * The re-entrancy guard of service discovery (components/esp32_ble_client/ble_gatt_host.cpp).
  * Blocking bus calls dispatch queued signals on the same thread, so a ServicesResolved,
  * Connected=true or Connected=false signal may arrive inside any of them, to any depth.
  */
module DiscoveryGuard {
  import opened Common

  /** A blocking call that has not returned yet. */
  datatype Frame =
    | Walk    // GetManagedObjects and the Device1 reads of walk_gatt_tree_
    | Probe   // the MTU reads of acquire_mtu_
    | Poll    // the ServicesResolved read after Connected=true
    | Other   // any other blocking call, the Disconnect of a failed walk included

  datatype State = State(
    discovered: bool,
    discovering: bool,
    stack: seq<Frame>,   // innermost call last
    posted: nat)         // SERVICES_DISCOVERED events since the last Connected=false

  datatype Step =
    | Resolved                       // ServicesResolved=true is dispatched
    | Up                             // Connected=true is dispatched
    | Down                           // Connected=false is dispatched
    | Block                          // some other blocking call starts
    | WalkReturns(ok: bool)
    | ProbeReturns
    | PollReturns(resolved: bool)
    | OtherReturns

  /** No discovery is running, and its event was posted if it has completed: a new host, or
      one between two signals. */
  predicate Idle(s: State) {
    !InFlight(s) && !s.discovering && s.posted == if s.discovered then 1 else 0
  }

  predicate Innermost(s: State, f: Frame) {
    s.stack != [] && s.stack[|s.stack| - 1] == f
  }

  predicate Enabled(s: State, step: Step) {
    match step
    case WalkReturns(_) => Innermost(s, Walk)
    case ProbeReturns => Innermost(s, Probe)
    case PollReturns(_) => Innermost(s, Poll)
    case OtherReturns => Innermost(s, Other)
    case _ => true
  }

  /** `try_start_discovery_` up to its first blocking call. */
  function TryStart(s: State): State {
    if s.discovered || s.discovering then s else s.(discovering := true, stack := s.stack + [Walk])
  }

  function Pop(s: State): State
    requires s.stack != []
  {
    s.(stack := s.stack[..|s.stack| - 1])
  }

  function Next(s: State, step: Step): State {
    if !Enabled(s, step) then s
    else match step
      case Resolved => TryStart(s)
      case Up => s.(stack := s.stack + [Poll])
      case Down => s.(discovered := false, discovering := false, posted := 0)
      case Block => s.(stack := s.stack + [Other])
      case WalkReturns(ok) =>
        if ok then s.(discovered := true, stack := s.stack[|s.stack| - 1 := Probe])
        else s.(discovering := false, stack := s.stack[|s.stack| - 1 := Other])
      case ProbeReturns => Pop(s).(discovering := false, posted := s.posted + 1)
      case PollReturns(resolved) => if resolved then TryStart(Pop(s)) else Pop(s)
      case OtherReturns => Pop(s)
  }

  function Run(s: State, steps: seq<Step>): State
    decreases |steps|
  {
    if steps == [] then s else Run(Next(s, steps[0]), steps[1..])
  }

  function Count(stack: seq<Frame>, f: Frame, n: nat): nat
    requires n <= |stack|
  {
    if n == 0 then 0 else Count(stack, f, n - 1) + if stack[n - 1] == f then 1 else 0
  }

  function Walks(s: State): nat {
    Count(s.stack, Walk, |s.stack|)
  }

  function Probes(s: State): nat {
    Count(s.stack, Probe, |s.stack|)
  }

  /** A discovery is running: its walk or its MTU probe has not returned. */
  predicate InFlight(s: State) {
    Walks(s) + Probes(s) > 0
  }

  /** No Connected=false is dispatched while a discovery is running. */
  predicate CleanDowns(s: State, steps: seq<Step>)
    decreases |steps|
  {
    steps == [] || ((steps[0].Down? ==> !InFlight(s)) && CleanDowns(Next(s, steps[0]), steps[1..]))
  }

  ghost predicate Inv(s: State) {
    && Walks(s) + Probes(s) == (if s.discovering then 1 else 0)
    && s.posted + Probes(s) == (if s.discovered then 1 else 0)
    && (Walks(s) > 0 ==> !s.discovered)
  }

  lemma {:induction false} CountPrefix(a: seq<Frame>, b: seq<Frame>, f: Frame, n: nat)
    requires n <= |a| && n <= |b| && a[..n] == b[..n]
    ensures Count(a, f, n) == Count(b, f, n)
  {
    if n > 0 {
      assert a[..n][n - 1] == a[n - 1] && b[..n][n - 1] == b[n - 1];
      assert a[..n - 1] == a[..n][..n - 1] && b[..n - 1] == b[..n][..n - 1];
      CountPrefix(a, b, f, n - 1);
    }
  }

  lemma {:induction false} Push(stack: seq<Frame>, f: Frame, g: Frame)
    ensures Count(stack + [g], f, |stack| + 1) == Count(stack, f, |stack|) + if f == g then 1 else 0
  {
    CountPrefix(stack, stack + [g], f, |stack|);
  }

  lemma {:induction false} Split(stack: seq<Frame>, f: Frame)
    requires stack != []
    ensures var init := stack[..|stack| - 1];
            Count(stack, f, |stack|) == Count(init, f, |init|) + if stack[|stack| - 1] == f then 1 else 0
  {
    CountPrefix(stack, stack[..|stack| - 1], f, |stack| - 1);
  }

  lemma {:induction false} Replace(stack: seq<Frame>, f: Frame, g: Frame)
    requires stack != []
    ensures var init := stack[..|stack| - 1];
            var t := stack[|stack| - 1 := g];
            Count(t, f, |t|) == Count(init, f, |init|) + if f == g then 1 else 0
  {
    CountPrefix(stack[|stack| - 1 := g], stack[..|stack| - 1], f, |stack| - 1);
  }

  lemma {:induction false} TryStartKeepsInv(s: State)
    requires Inv(s)
    ensures Inv(TryStart(s))
  {
    Push(s.stack, Walk, Walk);
    Push(s.stack, Probe, Walk);
  }

  lemma {:induction false} BlockKeepsInv(s: State, f: Frame)
    requires Inv(s) && f in {Poll, Other}
    ensures Inv(s.(stack := s.stack + [f]))
  {
    Push(s.stack, Walk, f);
    Push(s.stack, Probe, f);
  }

  lemma {:induction false} PopKeepsInv(s: State)
    requires Inv(s) && (Innermost(s, Poll) || Innermost(s, Other))
    ensures Inv(Pop(s))
  {
    Split(s.stack, Walk);
    Split(s.stack, Probe);
  }

  lemma {:induction false} WalkReturnsKeepsInv(s: State, ok: bool)
    requires Inv(s) && Innermost(s, Walk)
    ensures Inv(Next(s, WalkReturns(ok)))
  {
    var g := if ok then Probe else Other;
    Split(s.stack, Walk);
    Split(s.stack, Probe);
    Replace(s.stack, Walk, g);
    Replace(s.stack, Probe, g);
  }

  lemma {:induction false} ProbeReturnsKeepsInv(s: State)
    requires Inv(s) && Innermost(s, Probe)
    ensures Inv(Next(s, ProbeReturns))
  {
    Split(s.stack, Walk);
    Split(s.stack, Probe);
  }

  lemma {:induction false} StepKeepsInv(s: State, step: Step)
    requires Inv(s) && (step.Down? ==> !InFlight(s))
    ensures Inv(Next(s, step))
  {
    if Enabled(s, step) {
      match step
      case Resolved => TryStartKeepsInv(s);
      case Up => BlockKeepsInv(s, Poll);
      case Block => BlockKeepsInv(s, Other);
      case Down =>
      case WalkReturns(ok) => WalkReturnsKeepsInv(s, ok);
      case ProbeReturns => ProbeReturnsKeepsInv(s);
      case OtherReturns => PopKeepsInv(s);
      case PollReturns(resolved) =>
        PopKeepsInv(s);
        TryStartKeepsInv(Pop(s));
    }
  }

  lemma {:induction false} RunKeepsInv(s: State, steps: seq<Step>)
    requires Inv(s) && CleanDowns(s, steps)
    ensures Inv(Run(s, steps))
    decreases |steps|
  {
    if steps != [] {
      StepKeepsInv(s, steps[0]);
      RunKeepsInv(Next(s, steps[0]), steps[1..]);
    }
  }

  /** However signals nest, at most one walk or probe runs at a time and at most one
      SERVICES_DISCOVERED is posted between two consecutive Connected=false signals, provided
      none of the latter lands inside a running discovery. */
  lemma {:induction false} GuardHolds(s: State, steps: seq<Step>)
    requires Idle(s) && CleanDowns(s, steps)
    ensures Run(s, steps).posted <= 1
    ensures Walks(Run(s, steps)) + Probes(Run(s, steps)) <= 1
  {
    RunKeepsInv(s, steps);
  }

  // ----- the proviso is needed, for the probe as much as for the walk -----

  predicate NoDown(steps: seq<Step>) {
    forall i :: 0 <= i < |steps| ==> !steps[i].Down?
  }

  lemma {:induction false} NoDownIsClean(s: State, steps: seq<Step>)
    requires NoDown(steps)
    ensures CleanDowns(s, steps)
    decreases |steps|
  {
    if steps != [] {
      assert !steps[0].Down?;
      NoDownIsClean(Next(s, steps[0]), steps[1..]);
    }
  }

  lemma {:induction false} RunConcat(s: State, a: seq<Step>, b: seq<Step>)
    ensures Run(s, a + b) == Run(Run(s, a), b)
    decreases |a|
  {
    if a == [] {
      assert a + b == b;
    } else {
      assert (a + b)[1..] == a[1..] + b;
      RunConcat(Next(s, a[0]), a[1..], b);
    }
  }

  /** Steps that finish the calls above the innermost running discovery. */
  function Unwind(stack: seq<Frame>): seq<Step> {
    if stack == [] || stack[|stack| - 1] in {Walk, Probe} then []
    else [if stack[|stack| - 1] == Poll then PollReturns(false) else OtherReturns] + Unwind(stack[..|stack| - 1])
  }

  lemma {:induction false} RunOne(s: State, step: Step, rest: seq<Step>)
    ensures Run(s, [step] + rest) == Run(Next(s, step), rest)
  {
    assert ([step] + rest)[1..] == rest;
  }

  lemma {:induction false} PopKeepsFlight(s: State)
    requires InFlight(s) && s.stack[|s.stack| - 1] in {Poll, Other}
    ensures InFlight(Pop(s))
  {
    Split(s.stack, Walk);
    Split(s.stack, Probe);
  }

  lemma {:induction false} UnwindReaches(s: State)
    requires InFlight(s)
    ensures NoDown(Unwind(s.stack))
    ensures var t := Run(s, Unwind(s.stack));
            && (Innermost(t, Walk) || Innermost(t, Probe))
            && t.discovered == s.discovered && t.discovering == s.discovering && t.posted == s.posted
    decreases |s.stack|
  {
    var top := s.stack[|s.stack| - 1];
    if top in {Poll, Other} {
      var step := if top == Poll then PollReturns(false) else OtherReturns;
      PopKeepsFlight(s);
      UnwindReaches(Pop(s));
      RunOne(s, step, Unwind(Pop(s).stack));
    }
  }

  function Completion(walking: bool): seq<Step> {
    [Resolved, WalkReturns(true), ProbeReturns] + (if walking then [WalkReturns(true)] else []) + [ProbeReturns]
  }

  lemma {:induction false} CompletionPostsTwice(t: State)
    requires Innermost(t, Walk) || Innermost(t, Probe)
    requires !t.discovered && !t.discovering
    ensures var c := Completion(Innermost(t, Walk));
            NoDown(c) && Run(t, c).posted == t.posted + 2
  {
    var inner := [Resolved, WalkReturns(true), ProbeReturns];
    var u := Run(t, inner);
    if Innermost(t, Walk) {
      var outer := [WalkReturns(true), ProbeReturns];
      assert Completion(true) == inner + outer;
      RunConcat(t, inner, outer);
      var v := Next(u, WalkReturns(true));
      assert outer[1..] == [ProbeReturns];
      assert Run(v, [ProbeReturns]) == Run(Next(v, ProbeReturns), []);
    } else {
      assert Completion(false) == inner + [ProbeReturns];
      RunConcat(t, inner, [ProbeReturns]);
      assert Run(u, [ProbeReturns]) == Run(Next(u, ProbeReturns), []);
    }
  }

  lemma {:induction false} InterruptedPostsTwice(s: State) returns (more: seq<Step>)
    requires InFlight(s)
    ensures NoDown(more) && Run(Next(s, Down), more).posted == 2
  {
    var d := Next(s, Down);
    UnwindReaches(d);
    var t := Run(d, Unwind(d.stack));
    CompletionPostsTwice(t);
    var c := Completion(Innermost(t, Walk));
    RunConcat(d, Unwind(d.stack), c);
    more := Unwind(d.stack) + c;
  }

  /** The exact condition: after a Connected=false, every continuation up to the next one posts
      at most once if and only if no discovery was running when it arrived. */
  lemma {:induction false} GuardHoldsIffIdleAtDown(s: State, steps: seq<Step>)
    requires Idle(s) && CleanDowns(s, steps)
    ensures (forall more :: NoDown(more) ==> Run(Next(Run(s, steps), Down), more).posted <= 1) <==> !InFlight(Run(s, steps))
  {
    RunKeepsInv(s, steps);
    DownIsSafeIffIdle(Run(s, steps));
  }

  lemma {:induction false} DownIsSafeIffIdle(s: State)
    requires Inv(s)
    ensures (forall more :: NoDown(more) ==> Run(Next(s, Down), more).posted <= 1) <==> !InFlight(s)
  {
    var d := Next(s, Down);
    if InFlight(s) {
      var more := InterruptedPostsTwice(s);
      assert Run(d, more).posted == 2;
    } else {
      StepKeepsInv(s, Down);
      forall more | NoDown(more) ensures Run(d, more).posted <= 1 {
        NoDownIsClean(d, more);
        RunKeepsInv(d, more);
      }
    }
  }

  // ----- the handlers themselves -----

  /** A signal with everything that is dispatched inside the calls its handler makes. */
  datatype Signal =
    | ResolvedSignal(discovery: Discovery)
    | UpSignal(poll: seq<Signal>, resolved: bool, discovery: Discovery)
    | DownSignal

  /** What happens inside one run of `try_start_discovery_`: during the walk, during the
      Disconnect of a failed walk, during the MTU probe. */
  datatype Discovery = Discovery(walk: seq<Signal>, ok: bool, hangup: seq<Signal>, probe: seq<Signal>)

  datatype Posted = ConnectedPosted | DisconnectedPosted | DiscoveredPosted

  /** The worker's two flags and the events posted. */
  datatype Flags = Flags(discovered: bool, discovering: bool, events: seq<Posted>)

  /** `try_start_discovery_`, with the signals dispatched inside its blocking calls. */
  function Started(f: Flags, d: Discovery): Flags
    decreases d, 0
  {
    if f.discovered || f.discovering then f
    else
      var walked := Dispatched(f.(discovering := true), d.walk, |d.walk|);
      if !d.ok then Dispatched(walked.(discovering := false), d.hangup, |d.hangup|)
      else
        var probed := Dispatched(walked.(discovered := true), d.probe, |d.probe|);
        probed.(discovering := false, events := probed.events + [DiscoveredPosted])
  }

  function Handled(f: Flags, sig: Signal): Flags
    decreases sig, 0
  {
    match sig
    case ResolvedSignal(d) => Started(f, d)
    case UpSignal(poll, resolved, d) =>
      var polled := Dispatched(f.(events := f.events + [ConnectedPosted]), poll, |poll|);
      if resolved then Started(polled, d) else polled
    case DownSignal => Flags(false, false, f.events + [DisconnectedPosted])
  }

  function Dispatched(f: Flags, sigs: seq<Signal>, n: nat): Flags
    requires n <= |sigs|
    decreases sigs, n
  {
    if n == 0 then f else Handled(Dispatched(f, sigs, n - 1), sigs[n - 1])
  }

  predicate Downless(sig: Signal)
    decreases sig
  {
    match sig
    case ResolvedSignal(d) => DownlessRun(d)
    case UpSignal(poll, _, d) => (forall x <- poll :: Downless(x)) && DownlessRun(d)
    case DownSignal => false
  }

  predicate DownlessRun(d: Discovery)
    decreases d
  {
    (forall x <- d.walk :: Downless(x)) && (forall x <- d.hangup :: Downless(x)) && (forall x <- d.probe :: Downless(x))
  }

  predicate DownlessAll(sigs: seq<Signal>) {
    forall x <- sigs :: Downless(x)
  }

  function Discoveries(events: seq<Posted>): nat {
    if events == [] then 0
    else Discoveries(events[..|events| - 1]) + if events[|events| - 1].DiscoveredPosted? then 1 else 0
  }

  lemma {:induction false} OnePosted(events: seq<Posted>, e: Posted)
    ensures Discoveries(events + [e]) == Discoveries(events) + if e.DiscoveredPosted? then 1 else 0
  {
    assert (events + [e])[..|events|] == events;
  }

  /** The guard's effect over any nesting without Connected=false: the flag of a discovery already
      running is left alone, and SERVICES_DISCOVERED is posted exactly when `discovered` turns true. */
  predicate GuardedBy(f: Flags, t: Flags) {
    && t.discovering == f.discovering
    && (f.discovered ==> t.discovered)
    && (f.discovering ==> t.discovered == f.discovered)
    && Discoveries(t.events) == Discoveries(f.events) + if t.discovered && !f.discovered then 1 else 0
  }

  lemma {:induction false} StartedIsGuarded(f: Flags, d: Discovery)
    requires DownlessRun(d)
    ensures GuardedBy(f, Started(f, d))
    ensures d.ok && !f.discovering ==> Started(f, d).discovered
    decreases d, 0
  {
    if !f.discovered && !f.discovering {
      DispatchedIsGuarded(f.(discovering := true), d.walk, |d.walk|);
      var walked := Dispatched(f.(discovering := true), d.walk, |d.walk|);
      if d.ok {
        DispatchedIsGuarded(walked.(discovered := true), d.probe, |d.probe|);
        OnePosted(Dispatched(walked.(discovered := true), d.probe, |d.probe|).events, DiscoveredPosted);
      } else {
        DispatchedIsGuarded(walked.(discovering := false), d.hangup, |d.hangup|);
      }
    }
  }

  lemma {:induction false} HandledIsGuarded(f: Flags, sig: Signal)
    requires Downless(sig)
    ensures GuardedBy(f, Handled(f, sig))
    decreases sig, 0
  {
    match sig
    case ResolvedSignal(d) => StartedIsGuarded(f, d);
    case UpSignal(poll, resolved, d) =>
      OnePosted(f.events, ConnectedPosted);
      var up := f.(events := f.events + [ConnectedPosted]);
      DispatchedIsGuarded(up, poll, |poll|);
      if resolved {
        StartedIsGuarded(Dispatched(up, poll, |poll|), d);
      }
  }

  /** Whatever signals are dispatched, nested to any depth but without Connected=false, at most one
      SERVICES_DISCOVERED is posted, and none while a discovery outside is running. */
  lemma {:induction false} DispatchedIsGuarded(f: Flags, sigs: seq<Signal>, n: nat)
    requires n <= |sigs| && DownlessAll(sigs)
    ensures GuardedBy(f, Dispatched(f, sigs, n))
    decreases sigs, n
  {
    if n > 0 {
      DispatchedIsGuarded(f, sigs, n - 1);
      HandledIsGuarded(Dispatched(f, sigs, n - 1), sigs[n - 1]);
    }
  }

  // ----- the handlers are runs of the machine -----

  /** The steps of one try at discovery, begun by a ServicesResolved signal or a poll: nothing more
      when the flags turn it away, and otherwise the walk, and the probe or the hang-up, each with
      what is dispatched inside it. */
  function DiscoverySteps(s: State, start: Step, d: Discovery): seq<Step>
    decreases d, 0
  {
    var begun := Next(s, start);
    if s.discovering || !begun.discovering then [start]
    else
      var walk := AllSteps(begun, d.walk, |d.walk|);
      var walked := Next(Run(begun, walk), WalkReturns(d.ok));
      var after := if d.ok then d.probe else d.hangup;
      [start] + walk + [WalkReturns(d.ok)] + AllSteps(walked, after, |after|) + [if d.ok then ProbeReturns else OtherReturns]
  }

  /** The steps one signal stands for, with all that is dispatched inside. */
  function SignalSteps(s: State, sig: Signal): seq<Step>
    decreases sig, 0
  {
    match sig
    case ResolvedSignal(d) => DiscoverySteps(s, Resolved, d)
    case UpSignal(poll, resolved, d) =>
      var polling := AllSteps(Next(s, Up), poll, |poll|);
      var polled := Run(Next(s, Up), polling);
      [Up] + polling + if resolved then DiscoverySteps(polled, PollReturns(true), d) else [PollReturns(false)]
    case DownSignal => [Down]
  }

  function AllSteps(s: State, sigs: seq<Signal>, n: nat): seq<Step>
    requires n <= |sigs|
    decreases sigs, n
  {
    if n == 0 then []
    else
      var before := AllSteps(s, sigs, n - 1);
      before + SignalSteps(Run(s, before), sigs[n - 1])
  }

  /** What a step posts where it is taken: the link events as the signals come, and
      SERVICES_DISCOVERED when a probe returns. */
  function PostedBy(step: Step): seq<Posted> {
    match step
    case Up => [ConnectedPosted]
    case Down => [DisconnectedPosted]
    case ProbeReturns => [DiscoveredPosted]
    case _ => []
  }

  function AllPosted(steps: seq<Step>): seq<Posted> {
    Collected(PostedBy, steps, |steps|)
  }

  /** SERVICES_DISCOVERED events after the last DISCONNECTED. */
  function SinceDown(events: seq<Posted>): nat {
    if events == [] then 0
    else
      var before := SinceDown(events[..|events| - 1]);
      match events[|events| - 1]
      case DisconnectedPosted => 0
      case DiscoveredPosted => before + 1
      case ConnectedPosted => before
  }

  lemma {:induction false} SincePosted(events: seq<Posted>, e: Posted)
    ensures SinceDown(events + [e]) ==
            match e
            case DisconnectedPosted => 0
            case DiscoveredPosted => SinceDown(events) + 1
            case ConnectedPosted => SinceDown(events)
  {
    assert (events + [e])[..|events|] == events;
  }

  /** The worker's flags and events are the machine's. */
  ghost predicate Mirrors(f: Flags, s: State) {
    f.discovered == s.discovered && f.discovering == s.discovering && SinceDown(f.events) == s.posted
  }

  /** The handlers get from f to g while the machine goes from s to t: same flags at both ends,
      and the events posted are those of the steps. */
  ghost predicate Goes(f: Flags, s: State, steps: seq<Step>, g: Flags, t: State) {
    Run(s, steps) == t && Mirrors(g, t) && g.events == f.events + AllPosted(steps)
  }

  /** The same, with every call the handlers made returned. */
  ghost predicate RunsAs(f: Flags, g: Flags, s: State, steps: seq<Step>) {
    Goes(f, s, steps, g, Run(s, steps)) && Run(s, steps).stack == s.stack
  }

  lemma {:induction false} GoesOne(f: Flags, s: State, step: Step, g: Flags)
    requires Mirrors(g, Next(s, step)) && g.events == f.events + PostedBy(step)
    ensures Goes(f, s, [step], g, Next(s, step))
  {
    assert [step][1..] == [];
    assert Run(Next(s, step), []) == Next(s, step);
    assert Collected(PostedBy, [step], 1) == Collected(PostedBy, [step], 0) + PostedBy(step);
  }

  lemma {:induction false} GoesOn(f: Flags, s: State, a: seq<Step>, g: Flags, t: State, b: seq<Step>, h: Flags, u: State)
    requires Goes(f, s, a, g, t) && Goes(g, t, b, h, u)
    ensures Goes(f, s, a + b, h, u)
  {
    RunConcat(s, a, b);
    CollectedConcat(PostedBy, a, b);
    ConcatAssociates(f.events, AllPosted(a), AllPosted(b));
  }

  lemma {:induction false} GoesSilent(f: Flags, s: State, step: Step)
    requires PostedBy(step) == [] && Mirrors(f, Next(s, step))
    ensures Goes(f, s, [step], f, Next(s, step))
  {
    assert f.events + [] == f.events;
    GoesOne(f, s, step, f);
  }

  /** The flags when the walk returns. */
  function Walked(f: Flags, ok: bool): Flags {
    if ok then f.(discovered := true) else f.(discovering := false)
  }

  /** The walk returns. */
  lemma {:induction false} WalkEnds(f: Flags, w: State, ok: bool, base: seq<Frame>)
    requires Mirrors(f, w) && w.stack == base + [Walk]
    ensures var u := Next(w, WalkReturns(ok));
            u.stack == base + [if ok then Probe else Other] && Goes(f, w, [WalkReturns(ok)], Walked(f, ok), u)
  {
    assert f.events + [] == f.events;
    GoesOne(f, w, WalkReturns(ok), Walked(f, ok));
  }

  /** Up to the end of the walk. */
  lemma {:induction false} WalkGoes(f: Flags, s: State, start: Step, d: Discovery, base: seq<Frame>)
    requires Mirrors(f, s) && !f.discovered && !f.discovering && PostedBy(start) == []
    requires Next(s, start) == s.(discovering := true, stack := base + [Walk])
    ensures var begun, g := Next(s, start), f.(discovering := true);
            var walk, walked := AllSteps(begun, d.walk, |d.walk|), Dispatched(g, d.walk, |d.walk|);
            var u := Next(Run(begun, walk), WalkReturns(d.ok));
            && u.stack == base + [if d.ok then Probe else Other]
            && Goes(f, s, [start] + walk + [WalkReturns(d.ok)], Walked(walked, d.ok), u)
    decreases d, 0
  {
    var begun, g := Next(s, start), f.(discovering := true);
    assert f.events + [] == f.events;
    GoesOne(f, s, start, g);
    AllRun(g, begun, d.walk, |d.walk|);
    var walk, walked := AllSteps(begun, d.walk, |d.walk|), Dispatched(g, d.walk, |d.walk|);
    var w := Run(begun, walk);
    GoesOn(f, s, [start], g, begun, walk, walked, w);
    WalkEnds(walked, w, d.ok, base);
    GoesOn(f, s, [start] + walk, walked, w, [WalkReturns(d.ok)], Walked(walked, d.ok), Next(w, WalkReturns(d.ok)));
  }

  /** The last call of a discovery returns. */
  lemma {:induction false} EndGoes(last: Flags, v: State, ok: bool, base: seq<Frame>)
    requires Mirrors(last, v) && v.stack == base + [if ok then Probe else Other]
    ensures var end := if ok then ProbeReturns else OtherReturns;
            && Next(v, end).stack == base
            && Goes(last, v, [end], if ok then last.(discovering := false, events := last.events + [DiscoveredPosted]) else last, Next(v, end))
  {
    assert v.stack[..|v.stack| - 1] == base;
    if ok {
      SincePosted(last.events, DiscoveredPosted);
      GoesOne(last, v, ProbeReturns, last.(discovering := false, events := last.events + [DiscoveredPosted]));
    } else {
      GoesSilent(last, v, OtherReturns);
    }
  }

  /** A discovery that is let through: all its calls nest above the frame it was begun on. */
  lemma {:induction false} DiscoveryGoes(f: Flags, s: State, start: Step, d: Discovery, base: seq<Frame>)
    requires Mirrors(f, s) && !f.discovered && !f.discovering && PostedBy(start) == []
    requires Next(s, start) == s.(discovering := true, stack := base + [Walk])
    ensures var steps := DiscoverySteps(s, start, d);
            Goes(f, s, steps, Started(f, d), Run(s, steps)) && Run(s, steps).stack == base
    decreases d, 1
  {
    WalkGoes(f, s, start, d, base);
    var begun, g := Next(s, start), f.(discovering := true);
    var walk, walked := AllSteps(begun, d.walk, |d.walk|), Dispatched(g, d.walk, |d.walk|);
    var u := Next(Run(begun, walk), WalkReturns(d.ok));
    var front := [start] + walk + [WalkReturns(d.ok)];
    var h := Walked(walked, d.ok);
    var after := if d.ok then d.probe else d.hangup;
    AllRun(h, u, after, |after|);
    var rest, last := AllSteps(u, after, |after|), Dispatched(h, after, |after|);
    var v := Run(u, rest);
    GoesOn(f, s, front, h, u, rest, last, v);
    EndGoes(last, v, d.ok, base);
    var end := if d.ok then ProbeReturns else OtherReturns;
    GoesOn(f, s, front + rest, last, v, [end], Started(f, d), Next(v, end));
  }

  lemma {:induction false} TryRuns(f: Flags, s: State, d: Discovery)
    requires Mirrors(f, s)
    ensures RunsAs(f, Started(f, d), s, DiscoverySteps(s, Resolved, d))
    decreases d, 2
  {
    if f.discovered || f.discovering {
      GoesSilent(f, s, Resolved);
    } else {
      DiscoveryGoes(f, s, Resolved, d, s.stack);
    }
  }

  lemma {:induction false} PollGoes(f: Flags, s: State, d: Discovery)
    requires Mirrors(f, s) && Innermost(s, Poll)
    ensures var steps := DiscoverySteps(s, PollReturns(true), d);
            Goes(f, s, steps, Started(f, d), Run(s, steps)) && Run(s, steps).stack == s.stack[..|s.stack| - 1]
    decreases d, 2
  {
    if f.discovered || f.discovering {
      GoesSilent(f, s, PollReturns(true));
    } else {
      DiscoveryGoes(f, s, PollReturns(true), d, s.stack[..|s.stack| - 1]);
    }
  }

  /** Connected=true is posted, and the poll's call is made and returns with what it dispatched. */
  lemma {:induction false} UpGoes(f: Flags, s: State, poll: seq<Signal>)
    requires Mirrors(f, s)
    ensures var up, t := f.(events := f.events + [ConnectedPosted]), Next(s, Up);
            var polling := AllSteps(t, poll, |poll|);
            var p := Run(t, polling);
            Goes(f, s, [Up] + polling, Dispatched(up, poll, |poll|), p) && p.stack == s.stack + [Poll]
    decreases poll, |poll| + 1
  {
    var up, t := f.(events := f.events + [ConnectedPosted]), Next(s, Up);
    SincePosted(f.events, ConnectedPosted);
    GoesOne(f, s, Up, up);
    AllRun(up, t, poll, |poll|);
    var polling := AllSteps(t, poll, |poll|);
    GoesOn(f, s, [Up], up, t, polling, Dispatched(up, poll, |poll|), Run(t, polling));
  }

  /** The poll's reply. */
  lemma {:induction false} PollEnds(f: Flags, p: State, resolved: bool, d: Discovery, base: seq<Frame>)
    requires Mirrors(f, p) && p.stack == base + [Poll]
    ensures var tail := if resolved then DiscoverySteps(p, PollReturns(true), d) else [PollReturns(false)];
            Goes(f, p, tail, if resolved then Started(f, d) else f, Run(p, tail)) && Run(p, tail).stack == base
    decreases d, 3
  {
    assert p.stack[..|p.stack| - 1] == base;
    if resolved {
      PollGoes(f, p, d);
    } else {
      GoesSilent(f, p, PollReturns(false));
    }
  }

  lemma {:induction false} UpRuns(f: Flags, s: State, poll: seq<Signal>, resolved: bool, d: Discovery)
    requires Mirrors(f, s)
    ensures RunsAs(f, Handled(f, UpSignal(poll, resolved, d)), s, SignalSteps(s, UpSignal(poll, resolved, d)))
    decreases UpSignal(poll, resolved, d), 0
  {
    UpGoes(f, s, poll);
    var t := Next(s, Up);
    var polling, polled := AllSteps(t, poll, |poll|), Dispatched(f.(events := f.events + [ConnectedPosted]), poll, |poll|);
    var p := Run(t, polling);
    PollEnds(polled, p, resolved, d, s.stack);
    var tail := if resolved then DiscoverySteps(p, PollReturns(true), d) else [PollReturns(false)];
    GoesOn(f, s, [Up] + polling, polled, p, tail, if resolved then Started(polled, d) else polled, Run(p, tail));
  }

  lemma {:induction false} SignalRuns(f: Flags, s: State, sig: Signal)
    requires Mirrors(f, s)
    ensures RunsAs(f, Handled(f, sig), s, SignalSteps(s, sig))
    decreases sig, 1
  {
    match sig
    case ResolvedSignal(d) => TryRuns(f, s, d);
    case UpSignal(poll, resolved, d) => UpRuns(f, s, poll, resolved, d);
    case DownSignal =>
      SincePosted(f.events, DisconnectedPosted);
      GoesOne(f, s, Down, Handled(f, sig));
  }

  /** Whatever signals are handled, nested to any depth, the handlers are a run of the machine: they
      leave the same flags, post the events of its steps in order, and since the last DISCONNECTED
      have posted as many SERVICES_DISCOVERED as the machine counts. */
  lemma {:induction false} AllRun(f: Flags, s: State, sigs: seq<Signal>, n: nat)
    requires n <= |sigs| && Mirrors(f, s)
    ensures RunsAs(f, Dispatched(f, sigs, n), s, AllSteps(s, sigs, n))
    decreases sigs, n
  {
    if n == 0 {
      assert f.events + [] == f.events;
    } else {
      AllRun(f, s, sigs, n - 1);
      var before, g := AllSteps(s, sigs, n - 1), Dispatched(f, sigs, n - 1);
      var t := Run(s, before);
      SignalRuns(g, t, sigs[n - 1]);
      var more := SignalSteps(t, sigs[n - 1]);
      GoesOn(f, s, before, g, t, more, Handled(g, sigs[n - 1]), Run(t, more));
    }
  }

  lemma {:induction false} NoDownJoin(a: seq<Step>, b: seq<Step>)
    requires NoDown(a) && NoDown(b)
    ensures NoDown(a + b)
  {
  }

  lemma {:induction false} DiscoveryWithoutDown(s: State, start: Step, d: Discovery)
    requires DownlessRun(d) && !start.Down?
    ensures NoDown(DiscoverySteps(s, start, d))
    decreases d, 0
  {
    var begun := Next(s, start);
    if !s.discovering && begun.discovering {
      var walk := AllSteps(begun, d.walk, |d.walk|);
      AllWithoutDown(begun, d.walk, |d.walk|);
      var walked := Next(Run(begun, walk), WalkReturns(d.ok));
      var after := if d.ok then d.probe else d.hangup;
      AllWithoutDown(walked, after, |after|);
      NoDownJoin([start] + walk + [WalkReturns(d.ok)], AllSteps(walked, after, |after|));
    }
  }

  lemma {:induction false} SignalWithoutDown(s: State, sig: Signal)
    requires Downless(sig)
    ensures NoDown(SignalSteps(s, sig))
    decreases sig, 0
  {
    match sig
    case ResolvedSignal(d) => DiscoveryWithoutDown(s, Resolved, d);
    case UpSignal(poll, resolved, d) =>
      AllWithoutDown(Next(s, Up), poll, |poll|);
      DiscoveryWithoutDown(Run(Next(s, Up), AllSteps(Next(s, Up), poll, |poll|)), PollReturns(true), d);
  }

  lemma {:induction false} AllWithoutDown(s: State, sigs: seq<Signal>, n: nat)
    requires n <= |sigs| && DownlessAll(sigs)
    ensures NoDown(AllSteps(s, sigs, n))
    decreases sigs, n
  {
    if n > 0 {
      AllWithoutDown(s, sigs, n - 1);
      SignalWithoutDown(Run(s, AllSteps(s, sigs, n - 1)), sigs[n - 1]);
      NoDownJoin(AllSteps(s, sigs, n - 1), SignalSteps(Run(s, AllSteps(s, sigs, n - 1)), sigs[n - 1]));
    }
  }

  /** The machine when no call is running. */
  function AtRest(f: Flags): State {
    State(f.discovered, f.discovering, [], SinceDown(f.events))
  }

  lemma {:induction false} RestsIdle(f: Flags, s: State, steps: seq<Step>, g: Flags, t: State)
    requires Idle(s) && CleanDowns(s, steps) && Goes(f, s, steps, g, t) && t.stack == []
    ensures SinceDown(g.events) == (if g.discovered then 1 else 0) && Idle(AtRest(g))
  {
    RunKeepsInv(s, steps);
  }

  /** The guard, for the handlers: from an idle host, whatever signals are handled and nested, at most
      one SERVICES_DISCOVERED follows the last DISCONNECTED, provided no Connected=false is handled
      inside a running discovery. */
  lemma {:induction false} HandlersAreGuarded(f: Flags, sigs: seq<Signal>)
    requires Idle(AtRest(f)) && CleanDowns(AtRest(f), AllSteps(AtRest(f), sigs, |sigs|))
    ensures SinceDown(Dispatched(f, sigs, |sigs|).events) == if Dispatched(f, sigs, |sigs|).discovered then 1 else 0
    ensures Idle(AtRest(Dispatched(f, sigs, |sigs|)))
  {
    var s := AtRest(f);
    AllRun(f, s, sigs, |sigs|);
    var steps := AllSteps(s, sigs, |sigs|);
    RestsIdle(f, s, steps, Dispatched(f, sigs, |sigs|), Run(s, steps));
  }

  /** The proviso is needed: a Connected=false inside the walk lets the event be posted twice. */
  lemma {:induction false} HandlersPostTwice(f: Flags)
    requires f == Flags(false, false, [])
    ensures var good := Discovery([], true, [], []);
            SinceDown(Handled(f, ResolvedSignal(Discovery([DownSignal, ResolvedSignal(good)], true, [], []))).events) == 2
  {
    var good := Discovery([], true, [], []);
    var inner := [DownSignal, ResolvedSignal(good)];
    DownThenGood(f.(discovering := true), good);
    var d, h := Discovery(inner, true, [], []), Flags(true, false, [DisconnectedPosted, DiscoveredPosted]);
    assert Dispatched(h, d.probe, |d.probe|) == h && h.(discovered := true) == h;
    SinceTwice();
  }

  lemma {:induction false} DownThenGood(f: Flags, good: Discovery)
    requires f.events == [] && good == Discovery([], true, [], [])
    ensures Dispatched(f, [DownSignal, ResolvedSignal(good)], 2) == Flags(true, false, [DisconnectedPosted, DiscoveredPosted])
  {
    var inner, g := [DownSignal, ResolvedSignal(good)], Flags(false, false, [DisconnectedPosted]);
    assert Dispatched(f, inner, 1) == Handled(Dispatched(f, inner, 0), inner[0]) == g;
    assert Dispatched(g.(discovering := true), good.walk, 0) == g.(discovering := true);
    var h := g.(discovering := true, discovered := true);
    assert Dispatched(h, good.probe, 0) == h;
    assert Started(g, good) == Flags(true, false, [DisconnectedPosted] + [DiscoveredPosted]);
  }

  lemma {:induction false} SinceTwice()
    ensures SinceDown([DisconnectedPosted, DiscoveredPosted] + [DiscoveredPosted]) == 2
  {
    assert SinceDown([DisconnectedPosted]) == 0;
    SincePosted([DisconnectedPosted], DiscoveredPosted);
    assert [DisconnectedPosted] + [DiscoveredPosted] == [DisconnectedPosted, DiscoveredPosted];
    SincePosted([DisconnectedPosted, DiscoveredPosted], DiscoveredPosted);
  }

  /** The next discovery of a signal, if it makes one. */
  predicate Rediscovers(sig: Signal) {
    match sig
    case ResolvedSignal(d) => d.ok
    case UpSignal(_, resolved, d) => resolved && d.ok
    case DownSignal => false
  }

  /** Connected=false opens the guard again: whatever went before, the next signal with a successful
      discovery, with no Connected=false nested in it, posts exactly one SERVICES_DISCOVERED. */
  lemma {:induction false} RediscoversAfterDown(f: Flags, sig: Signal)
    requires Downless(sig) && Rediscovers(sig)
    ensures SinceDown(Handled(Handled(f, DownSignal), sig).events) == 1
  {
    var g := Handled(f, DownSignal);
    SincePosted(f.events, DisconnectedPosted);
    SignalWithoutDown(AtRest(g), sig);
    NoDownIsClean(AtRest(g), SignalSteps(AtRest(g), sig));
    HandledOnceIdle(g, sig);
    RediscoveryCompletes(g, sig);
  }

  lemma {:induction false} HandledOnceIdle(f: Flags, sig: Signal)
    requires Idle(AtRest(f)) && CleanDowns(AtRest(f), SignalSteps(AtRest(f), sig))
    ensures SinceDown(Handled(f, sig).events) == if Handled(f, sig).discovered then 1 else 0
  {
    SignalRuns(f, AtRest(f), sig);
    var steps := SignalSteps(AtRest(f), sig);
    RestsIdle(f, AtRest(f), steps, Handled(f, sig), Run(AtRest(f), steps));
  }

  lemma {:induction false} RediscoveryCompletes(f: Flags, sig: Signal)
    requires Downless(sig) && Rediscovers(sig) && !f.discovering
    ensures Handled(f, sig).discovered
  {
    match sig
    case ResolvedSignal(d) => StartedIsGuarded(f, d);
    case UpSignal(poll, _, d) =>
      var up := f.(events := f.events + [ConnectedPosted]);
      DispatchedIsGuarded(up, poll, |poll|);
      StartedIsGuarded(Dispatched(up, poll, |poll|), d);
  }

  class SignalHandlers {
    var discovered: bool
    var discovering: bool
    var events: seq<Posted>

    constructor ()
      ensures View() == Flags(false, false, [])
    {
      discovered, discovering, events := false, false, [];
    }

    ghost function View(): Flags
      reads this
    {
      Flags(discovered, discovering, events)
    }

    method TryStartDiscovery(d: Discovery)
      modifies this
      ensures View() == Started(old(View()), d)
      decreases d, 0
    {
      if discovered || discovering {
        return;
      }
      discovering := true;
      Dispatch(d.walk);
      if !d.ok {
        discovering := false;
        Dispatch(d.hangup);
        return;
      }
      discovered := true;
      Dispatch(d.probe);
      discovering := false;
      events := events + [DiscoveredPosted];
    }

    method Handle(sig: Signal)
      modifies this
      ensures View() == Handled(old(View()), sig)
      decreases sig, 0
    {
      match sig {
        case ResolvedSignal(d) => TryStartDiscovery(d);
        case UpSignal(poll, resolved, d) =>
          events := events + [ConnectedPosted];
          Dispatch(poll);
          if resolved {
            TryStartDiscovery(d);
          }
        case DownSignal =>
          discovered := false;
          discovering := false;
          events := events + [DisconnectedPosted];
      }
    }

    method Dispatch(sigs: seq<Signal>)
      modifies this
      ensures View() == Dispatched(old(View()), sigs, |sigs|)
      decreases sigs, 1
    {
      for i := 0 to |sigs|
        invariant View() == Dispatched(old(View()), sigs, i)
      {
        Handle(sigs[i]);
      }
    }
  }
}
