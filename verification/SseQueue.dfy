/**
  * The deferred, coalescing queue of a server-sent-event session
  * (components/web_server_base/web_server_host.cpp). A queued entry is a source together with
  * the generator that renders the source's state at the moment it is sent.
  */
module SseQueue {
  import opened Common
  import opened SseFrame

  datatype Entry = Entry(source: nat, generator: nat)

  /** What each generator would render now; an entry that is absent renders nothing. */
  type World = map<Entry, CString>

  function Render(world: World, e: Entry): CString {
    if e in world then world[e] else ""
  }

  /** An entry whose text was generated but which has not been erased from the queue. */
  datatype Busy = Idle | Generated(entry: Entry, text: CString) | Sent(entry: Entry, text: CString)

  datatype Session = Session(
    queue: seq<Entry>,
    open: bool,                  // the socket is open
    busy: Busy,                  // where the drain loop is
    world: World,
    view: map<Entry, CString>)   // the last text the client received for each entry

  datatype Step =
    | Update(entry: Entry, text: CString)   // the source changes and deferrable_send_state is called
    | Generate
    | Transmit(ok: bool)                    // the frame is sent completely, or the socket is closed
    | Skip                                  // nothing was generated
    | Erase

  predicate Enabled(s: Session, step: Step) {
    match step
    case Update(_, _) => true
    case Generate => s.busy.Idle? && s.open && s.queue != []
    case Transmit(_) => s.busy.Generated? && s.busy.text != ""
    case Skip => s.busy.Generated? && s.busy.text == ""
    case Erase => s.busy.Sent? && s.queue != []
  }

  function PushDedup(queue: seq<Entry>, e: Entry): seq<Entry> {
    if e in queue then queue else queue + [e]
  }

  function Next(s: Session, step: Step): Session {
    if !Enabled(s, step) then s
    else match step
      case Update(e, text) => s.(world := s.world[e := text], queue := PushDedup(s.queue, e))
      case Generate => s.(busy := Generated(s.queue[0], Render(s.world, s.queue[0])))
      case Transmit(ok) =>
        if ok then s.(view := s.view[s.busy.entry := s.busy.text], busy := Sent(s.busy.entry, s.busy.text))
        else s.(open := false, busy := Idle)
      case Skip => s.(busy := Sent(s.busy.entry, s.busy.text))
      case Erase => s.(queue := s.queue[1..], busy := Idle)
  }

  function Run(s: Session, steps: seq<Step>, n: nat): Session
    requires n <= |steps|
  {
    if n == 0 then s else Next(Run(s, steps, n - 1), steps[n - 1])
  }

  /** A session just opened. */
  predicate Opened(s: Session) {
    s.queue == [] && s.open && s.busy.Idle? && s.world == map[] && s.view == map[]
  }

  predicate Distinct(queue: seq<Entry>) {
    forall i, j :: 0 <= i < j < |queue| ==> queue[i] != queue[j]
  }

  /** The update lands on the entry that was generated and not yet erased. */
  predicate HitsBusy(s: Session, step: Step) {
    step.Update? && !s.busy.Idle? && step.entry == s.busy.entry
  }

  ghost predicate NoLostUpdate(s: Session, steps: seq<Step>, n: nat)
    requires n <= |steps|
  {
    forall i :: 0 <= i < n ==> !HitsBusy(Run(s, steps, i), steps[i])
  }

  /** The client's last text for an updated entry is current, or its latest text is empty. */
  predicate Current(s: Session, e: Entry) {
    Render(s.world, e) == "" || (e in s.view && s.view[e] == s.world[e])
  }

  ghost predicate Inv(s: Session) {
    && Distinct(s.queue)
    && (!s.busy.Idle? ==> s.queue != [] && s.queue[0] == s.busy.entry && s.busy.text == Render(s.world, s.busy.entry))
    && (s.busy.Sent? ==> Current(s, s.busy.entry))
    && forall e :: e in s.world && e !in s.queue ==> Current(s, e)
  }

  lemma {:induction false} UpdateKeepsInv(s: Session, e: Entry, text: CString)
    requires Inv(s) && !HitsBusy(s, Update(e, text))
    ensures Inv(Next(s, Update(e, text)))
  {
    var t := Next(s, Update(e, text));
    assert forall x :: x in s.queue ==> x in t.queue;
    forall x | x in t.world && x !in t.queue ensures Current(t, x) {
      assert x != e && x in s.world;
      assert Current(s, x);
    }
  }

  lemma {:induction false} EraseKeepsInv(s: Session)
    requires Inv(s) && Enabled(s, Erase)
    ensures Inv(Next(s, Erase))
  {
    var t := Next(s, Erase);
    forall x | x in t.world && x !in t.queue ensures Current(t, x) {
      assert s.queue == [s.queue[0]] + t.queue;
      assert x == s.queue[0] || x !in s.queue;
      assert Current(s, x);
    }
  }

  lemma {:induction false} TransmitKeepsInv(s: Session, ok: bool)
    requires Inv(s) && Enabled(s, Transmit(ok))
    ensures Inv(Next(s, Transmit(ok)))
  {
    var t := Next(s, Transmit(ok));
    forall x | x in t.world && x !in t.queue ensures Current(t, x) {
      assert x != s.busy.entry;
      assert Current(s, x);
    }
  }

  lemma {:induction false} StepKeepsInv(s: Session, step: Step)
    requires Inv(s) && !HitsBusy(s, step)
    ensures Inv(Next(s, step))
  {
    if Enabled(s, step) {
      match step
      case Update(e, text) => UpdateKeepsInv(s, e, text);
      case Erase => EraseKeepsInv(s);
      case Transmit(ok) => TransmitKeepsInv(s, ok);
      case Generate => assert forall x :: Current(s, x) <==> Current(Next(s, step), x);
      case Skip => assert forall x :: Current(s, x) <==> Current(Next(s, step), x);
    }
  }

  lemma {:induction false} RunKeepsInv(s: Session, steps: seq<Step>, n: nat)
    requires Inv(s) && n <= |steps| && NoLostUpdate(s, steps, n)
    ensures Inv(Run(s, steps, n))
  {
    if n > 0 {
      RunKeepsInv(s, steps, n - 1);
      assert !HitsBusy(Run(s, steps, n - 1), steps[n - 1]);
      StepKeepsInv(Run(s, steps, n - 1), steps[n - 1]);
    }
  }

  /** The queue never holds an entry twice. */
  lemma {:induction false} QueueDistinct(s: Session, steps: seq<Step>, n: nat)
    requires n <= |steps| && Distinct(s.queue)
    ensures Distinct(Run(s, steps, n).queue)
  {
    if n > 0 {
      QueueDistinct(s, steps, n - 1);
    }
  }

  // ----- against sending every update -----

  /** What the client would have if each update were sent at once. */
  function DirectView(steps: seq<Step>, n: nat): map<Entry, CString>
    requires n <= |steps|
  {
    if n == 0 then map[]
    else
      var v := DirectView(steps, n - 1);
      var last := steps[n - 1];
      if last.Update? && last.text != "" then v[last.entry := last.text] else v
  }

  /** Sending every update shows the latest text of every entry whose latest text is not empty. */
  ghost predicate ShowsLatest(d: map<Entry, CString>, w: World) {
    forall e: Entry :: e in w && w[e] != "" ==> e in d && d[e] == w[e]
  }

  lemma {:induction false} DirectIsLatest(s: Session, steps: seq<Step>, n: nat)
    requires Opened(s) && n <= |steps|
    ensures ShowsLatest(DirectView(steps, n), Run(s, steps, n).world)
  {
    if n > 0 {
      DirectIsLatest(s, steps, n - 1);
    }
  }

  /** After a drain on an open socket, every updated entry shows the client what sending every
      update would show, unless its latest text is empty; this is for all runs in which no
      update lands on the entry between generating and erasing it. */
  lemma {:induction false} DrainedViewIsDirect(s: Session, steps: seq<Step>, e: Entry)
    requires Opened(s) && NoLostUpdate(s, steps, |steps|)
    requires var t := Run(s, steps, |steps|); t.queue == [] && Render(t.world, e) != ""
    ensures var t, d := Run(s, steps, |steps|), DirectView(steps, |steps|);
            e in t.view && e in d && t.view[e] == d[e] == t.world[e]
  {
    RunKeepsInv(s, steps, |steps|);
    DirectIsLatest(s, steps, |steps|);
    assert Current(Run(s, steps, |steps|), e);
  }

  /** What is left of the drain's turn once the entry's text has been generated. */
  function FinishTurn(s: Session): Session {
    var sent := if !s.busy.Generated? then s else if s.busy.text != "" then Next(s, Transmit(true)) else Next(s, Skip);
    Next(sent, Erase)
  }

  /** The proviso is exact: an update that lands on the busy entry is never queued, so when the
      turn is over the client is up to date on it if and only if the text is empty or what the
      client has anyway: the text being sent or, when the entry is skipped, the one it had. */
  lemma {:induction false} BusyUpdateCurrentIff(s: Session, text: CString)
    requires Inv(s) && !s.busy.Idle?
    ensures var e, t := s.busy.entry, FinishTurn(Next(s, Update(s.busy.entry, text)));
            && e !in t.queue && t.busy.Idle?
            && (Current(t, e) <==>
                text == "" || if s.busy.text != "" then text == s.busy.text else e in s.view && s.view[e] == text)
  {
    var e := s.busy.entry;
    var u := Next(s, Update(e, text));
    var t := FinishTurn(u);
    assert u.queue == s.queue && t.queue == s.queue[1..];
    assert forall i :: 0 <= i < |t.queue| ==> t.queue[i] == s.queue[i + 1];
  }

  /** An entry whose latest text is empty is dropped unsent, so the client keeps what it had:
      two updates coalesce to nothing where sending each would have shown the first. */
  lemma {:induction false} EmptyTextHidesUpdate(s: Session, e: Entry, text: CString)
    requires Opened(s) && text != ""
    ensures var steps := [Update(e, text), Update(e, "")];
            var u, d := Run(s, steps, 2), DirectView(steps, 2);
            u.busy.Idle? && var t := Drain(u, []); t.queue == [] && t.open && e !in t.view && e in d && d[e] == text
  {
    var steps := [Update(e, text), Update(e, "")];
    var s1 := Next(s, steps[0]);
    var s2 := Next(s1, steps[1]);
    assert Run(s, steps, 1) == s1 && Run(s, steps, 2) == s2;
    assert s1.queue == [e] && s2.queue == [e];
    assert DirectView(steps, 1) == map[e := text];
    assert Render(s2.world, e) == "";
    assert s2.queue[1..] == [];
  }

  // ----- the session object -----

  /** One drain on the main thread, with what the network does to each frame in turn. */
  function Drain(s: Session, sends: seq<bool>): Session
    requires s.busy.Idle?
    decreases |s.queue|
  {
    if s.queue == [] || !s.open then s
    else
      var e := s.queue[0];
      var text := Render(s.world, e);
      if text == "" then Drain(s.(queue := s.queue[1..]), sends)
      else if sends == [] || !sends[0] then s.(open := false)
      else Drain(s.(view := s.view[e := text], queue := s.queue[1..]), sends[1..])
  }

  function StateFrame(text: CString): string {
    Frame(Push(text, "state", 0, 0))
  }

  /** The frames a drain of an open session sends completely: one "state" event per
      non-empty text. */
  function DrainFrames(queue: seq<Entry>, world: World, sends: seq<bool>): seq<string>
    decreases |queue|
  {
    if queue == [] then []
    else if Render(world, queue[0]) == "" then DrainFrames(queue[1..], world, sends)
    else if sends == [] || !sends[0] then []
    else [StateFrame(Render(world, queue[0]))] + DrainFrames(queue[1..], world, sends[1..])
  }

  // ----- what the client dispatches of a drain -----

  function TextOf(world: World, e: Entry): seq<CString> {
    if Render(world, e) == "" then [] else [Render(world, e)]
  }

  /** The texts of the queue's entries, in order, without the empty ones. */
  function Texts(queue: seq<Entry>, world: World): seq<CString> {
    if queue == [] then [] else TextOf(world, queue[0]) + Texts(queue[1..], world)
  }

  /** Sends that complete before the first that does not. */
  function Completed(sends: seq<bool>): nat {
    if sends == [] || !sends[0] then 0 else 1 + Completed(sends[1..])
  }

  function StatePushes(texts: seq<CString>): (pushes: seq<Push>)
    ensures |pushes| == |texts| && forall i :: 0 <= i < |texts| ==> pushes[i] == Push(texts[i], "state", 0, 0)
  {
    seq(|texts|, i requires 0 <= i < |texts| => Push(texts[i], "state", 0, 0))
  }

  /** A client's "state" events with these texts; no event has an id or a reconnection time. */
  function StateEvents(texts: seq<CString>): (events: seq<Received>)
    ensures |events| == |texts|
  {
    seq(|texts|, i requires 0 <= i < |texts| => Received("state", texts[i], "", None))
  }

  lemma {:induction false} FirstFrame(text: CString, texts: seq<CString>)
    ensures Frames(StatePushes([text] + texts)) == [StateFrame(text)] + Frames(StatePushes(texts))
  {
    var first: Push := Push(text, "state", 0, 0);
    assert StatePushes([text] + texts) == [first] + StatePushes(texts);
    FramesFirst(first, StatePushes(texts));
  }

  lemma {:induction false} TakeFirst(text: CString, texts: seq<CString>, k: nat)
    requires k <= |texts|
    ensures ([text] + texts)[..k + 1] == [text] + texts[..k]
  {
  }

  lemma {:induction false} FramesAreTexts(queue: seq<Entry>, world: World, sends: seq<bool>)
    ensures var texts := Texts(queue, world);
            DrainFrames(queue, world, sends) == Frames(StatePushes(texts[..Min(|texts|, Completed(sends))]))
    decreases |queue|
  {
    if queue != [] {
      var text, rest := Render(world, queue[0]), Texts(queue[1..], world);
      if text == "" {
        assert Texts(queue, world) == rest;
        FramesAreTexts(queue[1..], world, sends);
      } else if sends != [] && sends[0] {
        FramesAreTexts(queue[1..], world, sends[1..]);
        var k := Min(|rest|, Completed(sends[1..]));
        TakeFirst(text, rest, k);
        FirstFrame(text, rest[..k]);
      }
    }
  }

  lemma {:induction false} StatesDelivered(texts: seq<CString>, n: nat)
    requires n <= |texts|
    ensures var p := DeliverUpTo(FRESH, StatePushes(texts), n);
            p.id == "" && p.reconnectionTime == None && p.events == StateEvents(texts)[..n]
  {
    if n > 0 {
      StatesDelivered(texts, n - 1);
      assert StateEvents(texts)[..n] == StateEvents(texts)[..n - 1] + [Received("state", texts[n - 1], "", None)];
    }
  }

  lemma {:induction false} StatesDispatchedIff(texts: seq<CString>)
    ensures Interpret(Stream(StatePushes(texts))) == StateEvents(texts) <==> forall t <- texts :: '\r' !in t
  {
    StreamRoundTrip(StatePushes(texts));
    StatesDelivered(texts, |texts|);
    assert StateEvents(texts)[..|texts|] == StateEvents(texts);
    CleanTexts(texts);
  }

  lemma {:induction false} CleanTexts(texts: seq<CString>)
    ensures (forall i :: 0 <= i < |texts| ==> Clean(StatePushes(texts)[i])) <==> forall t <- texts :: '\r' !in t
  {
    forall i | 0 <= i < |texts| ensures Clean(StatePushes(texts)[i]) <==> '\r' !in texts[i] {
    }
  }

  /** However far the sends get, the client of a drained session dispatches exactly one "state" event
      for each non-empty text sent, in queue order and with that text, if and only if none of these
      texts has a carriage return. */
  lemma {:induction false} DrainDispatchesStates(queue: seq<Entry>, world: World, sends: seq<bool>, texts: seq<CString>)
    requires texts == Texts(queue, world)[..Min(|Texts(queue, world)|, Completed(sends))]
    ensures var frames := DrainFrames(queue, world, sends);
            Interpret(ConcatUpTo(frames, |frames|)) == StateEvents(texts) <==> forall t <- texts :: '\r' !in t
  {
    FramesAreTexts(queue, world, sends);
    StatesDispatchedIff(texts);
  }

  /** The steps of the machine that the drain takes. */
  function DrainSteps(s: Session, sends: seq<bool>): seq<Step>
    requires s.busy.Idle?
    decreases |s.queue|
  {
    if s.queue == [] || !s.open then []
    else
      var text := Render(s.world, s.queue[0]);
      if text == "" then [Generate, Skip, Erase] + DrainSteps(s.(queue := s.queue[1..]), sends)
      else if sends == [] || !sends[0] then [Generate, Transmit(false)]
      else [Generate, Transmit(true), Erase]
           + DrainSteps(s.(view := s.view[s.queue[0] := text], queue := s.queue[1..]), sends[1..])
  }

  lemma {:induction false} RunPrepend(s: Session, a: seq<Step>, b: seq<Step>, n: nat)
    requires n <= |b|
    ensures Run(s, a + b, |a| + n) == Run(Run(s, a, |a|), b, n)
  {
    if n == 0 {
      RunPrefix(s, a, b, |a|);
    } else {
      RunPrepend(s, a, b, n - 1);
      assert (a + b)[|a| + n - 1] == b[n - 1];
    }
  }

  lemma {:induction false} RunPrefix(s: Session, a: seq<Step>, b: seq<Step>, n: nat)
    requires n <= |a|
    ensures Run(s, a + b, n) == Run(s, a, n)
  {
    if n > 0 {
      RunPrefix(s, a, b, n - 1);
    }
  }

  lemma {:induction false} RunThree(s: Session, a: Step, b: Step, c: Step)
    ensures Run(s, [a, b, c], 3) == Next(Next(Next(s, a), b), c)
  {
    assert Run(s, [a, b, c], 1) == Next(s, a);
    assert Run(s, [a, b, c], 2) == Next(Next(s, a), b);
  }

  lemma {:induction false} SkipTurn(s: Session)
    requires s.busy.Idle? && s.open && s.queue != [] && Render(s.world, s.queue[0]) == ""
    ensures Run(s, [Generate, Skip, Erase], 3) == s.(queue := s.queue[1..])
  {
    RunThree(s, Generate, Skip, Erase);
  }

  lemma {:induction false} SendTurn(s: Session)
    requires s.busy.Idle? && s.open && s.queue != [] && Render(s.world, s.queue[0]) != ""
    ensures Run(s, [Generate, Transmit(true), Erase], 3) ==
            s.(view := s.view[s.queue[0] := Render(s.world, s.queue[0])], queue := s.queue[1..])
  {
    RunThree(s, Generate, Transmit(true), Erase);
  }

  /** The drain loop is a run of the machine in which nothing else interferes. */
  lemma {:induction false} DrainIsRun(s: Session, sends: seq<bool>)
    requires s.busy.Idle?
    ensures Run(s, DrainSteps(s, sends), |DrainSteps(s, sends)|) == Drain(s, sends)
    decreases |s.queue|
  {
    if s.queue != [] && s.open {
      var text := Render(s.world, s.queue[0]);
      if text == "" {
        var t := s.(queue := s.queue[1..]);
        SkipTurn(s);
        DrainIsRun(t, sends);
        RunPrepend(s, [Generate, Skip, Erase], DrainSteps(t, sends), |DrainSteps(t, sends)|);
      } else if sends == [] || !sends[0] {
        assert Run(s, [Generate, Transmit(false)], 1) == Next(s, Generate);
      } else {
        var t := s.(view := s.view[s.queue[0] := text], queue := s.queue[1..]);
        SendTurn(s);
        DrainIsRun(t, sends[1..]);
        RunPrepend(s, [Generate, Transmit(true), Erase], DrainSteps(t, sends[1..]), |DrainSteps(t, sends[1..])|);
      }
    }
  }

  // ----- when coalescing shows what sending every update shows -----

  datatype Change = Change(entry: Entry, text: CString)

  /** The updates of a run, in order. */
  function ChangesUpTo(steps: seq<Step>, n: nat): seq<Change>
    requires n <= |steps|
  {
    if n == 0 then []
    else if steps[n - 1].Update? then ChangesUpTo(steps, n - 1) + [Change(steps[n - 1].entry, steps[n - 1].text)]
    else ChangesUpTo(steps, n - 1)
  }

  /** An entry's text after the first n updates. */
  function LatestUpTo(us: seq<Change>, n: nat, e: Entry): CString
    requires n <= |us|
  {
    if n == 0 then "" else if us[n - 1].entry == e then us[n - 1].text else LatestUpTo(us, n - 1, e)
  }

  predicate AllEmpty(us: seq<Change>, e: Entry) {
    forall i :: 0 <= i < |us| && us[i].entry == e ==> us[i].text == ""
  }

  predicate SameFor(e: Entry, a: map<Entry, CString>, b: map<Entry, CString>) {
    (e in a <==> e in b) && (e in a ==> a[e] == b[e])
  }

  /** A run of a new session with these updates, none of them on a busy entry, that ends
      drained on an open socket. */
  ghost predicate DrainedRun(s: Session, steps: seq<Step>, us: seq<Change>) {
    && Opened(s) && NoLostUpdate(s, steps, |steps|) && ChangesUpTo(steps, |steps|) == us
    && var t := Run(s, steps, |steps|); t.queue == [] && t.open && t.busy.Idle?
  }

  lemma {:induction false} LatestSnoc(us: seq<Change>, u: Change, n: nat, e: Entry)
    requires n <= |us|
    ensures LatestUpTo(us + [u], n, e) == LatestUpTo(us, n, e)
  {
    if n > 0 {
      LatestSnoc(us, u, n - 1, e);
    }
  }

  lemma {:induction false} WorldIsLatest(s: Session, steps: seq<Step>, n: nat, e: Entry)
    requires Opened(s) && n <= |steps|
    ensures var us := ChangesUpTo(steps, n); Render(Run(s, steps, n).world, e) == LatestUpTo(us, |us|, e)
  {
    if n > 0 {
      WorldIsLatest(s, steps, n - 1, e);
      var before := ChangesUpTo(steps, n - 1);
      if steps[n - 1].Update? {
        LatestSnoc(before, Change(steps[n - 1].entry, steps[n - 1].text), |before|, e);
      }
    }
  }

  /** An entry whose every text is empty is never sent, and would not be sent directly. */
  lemma {:induction false} EmptyIsNeverShown(s: Session, steps: seq<Step>, n: nat, e: Entry)
    requires Opened(s) && n <= |steps| && AllEmpty(ChangesUpTo(steps, n), e)
    ensures e !in DirectView(steps, n)
    ensures var t := Run(s, steps, n);
            e !in t.view && Render(t.world, e) == "" && (!t.busy.Idle? && t.busy.entry == e ==> t.busy.text == "")
  {
    if n > 0 {
      var before, us := ChangesUpTo(steps, n - 1), ChangesUpTo(steps, n);
      assert forall i :: 0 <= i < |before| ==> before[i] == us[i];
      EmptyIsNeverShown(s, steps, n - 1, e);
      if steps[n - 1].Update? {
        assert us[|us| - 1] == Change(steps[n - 1].entry, steps[n - 1].text);
      }
    }
  }

  // The run that makes all updates first and then drains.

  function AsUpdates(us: seq<Change>): (steps: seq<Step>)
    ensures |steps| == |us| && UpdatesThenOthers(steps, us)
  {
    seq(|us|, i requires 0 <= i < |us| => Update(us[i].entry, us[i].text))
  }

  /** The run starts with these updates and makes no others. */
  ghost predicate UpdatesThenOthers(steps: seq<Step>, us: seq<Change>) {
    && |us| <= |steps|
    && (forall i :: 0 <= i < |us| ==> steps[i] == Update(us[i].entry, us[i].text))
    && forall i :: |us| <= i < |steps| ==> !steps[i].Update?
  }

  lemma {:induction false} UpdatesFirst(s: Session, us: seq<Change>, steps: seq<Step>, n: nat)
    requires n <= |us| && s.busy.Idle? && UpdatesThenOthers(steps, us)
    ensures ChangesUpTo(steps, n) == us[..n]
    ensures var t := Run(s, steps, n); t.busy.Idle? && t.open == s.open && t.view == s.view
  {
    if n > 0 {
      UpdatesFirst(s, us, steps, n - 1);
      assert us[..n] == us[..n - 1] + [us[n - 1]];
    }
  }

  lemma {:induction false} DrainMakesNoUpdate(s: Session, sends: seq<bool>)
    requires s.busy.Idle?
    ensures forall step <- DrainSteps(s, sends) :: !step.Update?
    decreases |s.queue|
  {
    if s.queue != [] && s.open {
      var text := Render(s.world, s.queue[0]);
      if text == "" {
        DrainMakesNoUpdate(s.(queue := s.queue[1..]), sends);
      } else if sends != [] && sends[0] {
        DrainMakesNoUpdate(s.(view := s.view[s.queue[0] := text], queue := s.queue[1..]), sends[1..]);
      }
    }
  }

  lemma {:induction false} NoMoreChanges(steps: seq<Step>, us: seq<Change>, n: nat)
    requires |us| <= n <= |steps| && UpdatesThenOthers(steps, us)
    ensures ChangesUpTo(steps, n) == ChangesUpTo(steps, |us|)
  {
    if n > |us| {
      NoMoreChanges(steps, us, n - 1);
    }
  }

  /** When every send succeeds the drain empties the queue and shows nothing empty. */
  lemma {:induction false} DrainEmpties(s: Session, sends: seq<bool>, e: Entry)
    requires s.busy.Idle? && s.open && |s.queue| <= |sends| && forall i :: 0 <= i < |sends| ==> sends[i]
    requires Render(s.world, e) == "" && e !in s.view
    ensures var t := Drain(s, sends); t.queue == [] && t.open && t.busy.Idle? && e !in t.view
    decreases |s.queue|
  {
    if s.queue != [] {
      var text := Render(s.world, s.queue[0]);
      if text == "" {
        DrainEmpties(s.(queue := s.queue[1..]), sends, e);
      } else {
        DrainEmpties(s.(view := s.view[s.queue[0] := text], queue := s.queue[1..]), sends[1..], e);
      }
    }
  }

  lemma {:induction false} ShownOnce(steps: seq<Step>, n: nat, i: nat)
    requires i < n <= |steps| && steps[i].Update? && steps[i].text != ""
    ensures steps[i].entry in DirectView(steps, n)
  {
    if i < n - 1 {
      ShownOnce(steps, n - 1, i);
    }
  }

  const NEW_SESSION := Session([], true, Idle, map[], map[])

  function AllSent(n: nat): (sends: seq<bool>)
    ensures |sends| == n && forall i :: 0 <= i < n ==> sends[i]
  {
    seq(n, _ => true)
  }

  /** All updates first, then one drain in which every send succeeds. */
  function CoalescingRun(s: Session, us: seq<Change>): seq<Step>
    requires s.busy.Idle?
  {
    var t := Run(s, AsUpdates(us), |us|);
    if t.busy.Idle? then AsUpdates(us) + DrainSteps(t, AllSent(|t.queue|)) else []
  }

  lemma {:induction false} AfterUpdates(s: Session, us: seq<Change>, e: Entry)
    requires Opened(s)
    ensures var t := Run(s, AsUpdates(us), |us|);
            && t.busy.Idle? && t.open && t.view == map[] && Render(t.world, e) == LatestUpTo(us, |us|, e)
            && CoalescingRun(s, us) == AsUpdates(us) + DrainSteps(t, AllSent(|t.queue|))
  {
    UpdatesFirst(s, us, AsUpdates(us), |us|);
    assert us[..|us|] == us;
    WorldIsLatest(s, AsUpdates(us), |us|, e);
  }

  lemma {:induction false} NoUpdateHitsBusy(s: Session, us: seq<Change>, steps: seq<Step>)
    requires s.busy.Idle? && UpdatesThenOthers(steps, us)
    ensures NoLostUpdate(s, steps, |steps|) && ChangesUpTo(steps, |steps|) == us
  {
    forall i | 0 <= i < |steps| ensures !HitsBusy(Run(s, steps, i), steps[i]) {
      if i < |us| {
        UpdatesFirst(s, us, steps, i);
      }
    }
    UpdatesFirst(s, us, steps, |us|);
    NoMoreChanges(steps, us, |steps|);
    assert us[..|us|] == us;
  }

  /** Running a and then a drain of the state it reaches. */
  lemma {:induction false} ThenDrain(s: Session, a: seq<Step>, sends: seq<bool>, e: Entry)
    requires var t := Run(s, a, |a|);
             && t.busy.Idle? && t.open && |t.queue| <= |sends| && (forall i :: 0 <= i < |sends| ==> sends[i])
             && Render(t.world, e) == "" && e !in t.view
    ensures var t := Run(s, a, |a|);
            var steps := a + DrainSteps(t, sends);
            var r := Run(s, steps, |steps|);
            r.queue == [] && r.open && r.busy.Idle? && e !in r.view
  {
    var t := Run(s, a, |a|);
    var b := DrainSteps(t, sends);
    DrainEmpties(t, sends, e);
    DrainIsRun(t, sends);
    RunPrepend(s, a, b, |b|);
  }

  lemma {:induction false} NoUpdateAfter(us: seq<Change>, b: seq<Step>)
    requires forall step <- b :: !step.Update?
    ensures UpdatesThenOthers(AsUpdates(us) + b, us)
  {
  }

  lemma {:induction false} CoalescingRunDrains(s: Session, us: seq<Change>, e: Entry)
    requires Opened(s) && LatestUpTo(us, |us|, e) == ""
    ensures var steps := CoalescingRun(s, us);
            DrainedRun(s, steps, us) && UpdatesThenOthers(steps, us) && e !in Run(s, steps, |steps|).view
  {
    AfterUpdates(s, us, e);
    var t := Run(s, AsUpdates(us), |us|);
    var sends := AllSent(|t.queue|);
    ThenDrain(s, AsUpdates(us), sends, e);
    DrainMakesNoUpdate(t, sends);
    NoUpdateAfter(us, DrainSteps(t, sends));
    NoUpdateHitsBusy(s, us, CoalescingRun(s, us));
  }

  /** Coalescing shows the client of an entry what sending every update would have shown, in
      every run with these updates, if and only if the entry's latest text is not empty or it
      never had one that is not. */
  lemma {:induction false} CoalescingIsFaithfulIff(us: seq<Change>, e: Entry)
    ensures (forall s, steps :: DrainedRun(s, steps, us) ==>
               SameFor(e, Run(s, steps, |steps|).view, DirectView(steps, |steps|))) <==>
            LatestUpTo(us, |us|, e) != "" || AllEmpty(us, e)
  {
    if LatestUpTo(us, |us|, e) != "" || AllEmpty(us, e) {
      forall s, steps | DrainedRun(s, steps, us)
        ensures SameFor(e, Run(s, steps, |steps|).view, DirectView(steps, |steps|))
      {
        WorldIsLatest(s, steps, |steps|, e);
        if AllEmpty(us, e) {
          EmptyIsNeverShown(s, steps, |steps|, e);
        } else {
          DrainedViewIsDirect(s, steps, e);
        }
      }
    } else {
      var s := NEW_SESSION;
      var steps := CoalescingRun(s, us);
      CoalescingRunDrains(s, us, e);
      var i :| 0 <= i < |us| && us[i].entry == e && us[i].text != "";
      ShownOnce(steps, |steps|, i);
      assert !SameFor(e, Run(s, steps, |steps|).view, DirectView(steps, |steps|));
    }
  }

  // ----- runs in which updates may land on the busy entry -----

  ghost predicate Sound(s: Session) {
    && Distinct(s.queue)
    && (!s.busy.Idle? ==> s.queue != [] && s.queue[0] == s.busy.entry)
    && (s.busy.Sent? && s.busy.text != "" ==> Shown(s, s.busy.entry) == Some(s.busy.text))
  }

  /** What the client has for the entry. */
  function Shown(s: Session, e: Entry): Option<CString> {
    if e in s.view then Some(s.view[e]) else None
  }

  predicate BusyWith(s: Session, e: Entry) {
    !s.busy.Idle? && s.busy.entry == e
  }

  lemma {:induction false} StepKeepsSound(s: Session, step: Step)
    requires Sound(s)
    ensures Sound(Next(s, step))
  {
  }

  lemma {:induction false} RunIsSound(s: Session, steps: seq<Step>, n: nat)
    requires Opened(s) && n <= |steps|
    ensures Sound(Run(s, steps, n))
  {
    if n > 0 {
      RunIsSound(s, steps, n - 1);
      StepKeepsSound(Run(s, steps, n - 1), steps[n - 1]);
    }
  }

  /** The entry's latest text is queued, being sent, or current. */
  predicate OnTrack(s: Session, e: Entry, text: CString) {
    && Render(s.world, e) == text
    && (e in s.queue || Current(s, e))
    && (BusyWith(s, e) ==> s.busy.text == text && (s.busy.Sent? ==> Current(s, e)))
  }

  lemma {:induction false} StaysOnTrack(s: Session, step: Step, e: Entry, text: CString)
    requires Sound(s) && OnTrack(s, e, text) && !(step.Update? && step.entry == e)
    ensures OnTrack(Next(s, step), e, text)
  {
  }

  /** What the client will have for the busy entry when its turn is over. */
  function TurnShows(s: Session): Option<CString>
    requires !s.busy.Idle?
  {
    if s.busy.text != "" then Some(s.busy.text) else Shown(s, s.busy.entry)
  }

  /** An update came too late for the turn of its entry and did not queue it again. */
  predicate Missed(s: Session, e: Entry, text: CString, shown: Option<CString>) {
    && Render(s.world, e) == text
    && (s.open ==> if BusyWith(s, e) then TurnShows(s) == shown else e !in s.queue && Shown(s, e) == shown)
  }

  lemma {:induction false} StaysMissed(s: Session, step: Step, e: Entry, text: CString, shown: Option<CString>)
    requires Sound(s) && Missed(s, e, text, shown) && !(step.Update? && step.entry == e)
    ensures Missed(Next(s, step), e, text, shown)
  {
  }

  lemma {:induction false} AfterLastUpdate(s: Session, steps: seq<Step>, k: nat, n: nat)
    requires Opened(s) && k < n <= |steps| && steps[k].Update?
    requires forall i :: k < i < n ==> !(steps[i].Update? && steps[i].entry == steps[k].entry)
    ensures var b := Run(s, steps, k);
            if HitsBusy(b, steps[k]) then Missed(Run(s, steps, n), steps[k].entry, steps[k].text, TurnShows(b))
            else OnTrack(Run(s, steps, n), steps[k].entry, steps[k].text)
  {
    RunIsSound(s, steps, n - 1);
    if k < n - 1 {
      AfterLastUpdate(s, steps, k, n - 1);
      var b, t := Run(s, steps, k), Run(s, steps, n - 1);
      if HitsBusy(b, steps[k]) {
        StaysMissed(t, steps[n - 1], steps[k].entry, steps[k].text, TurnShows(b));
      } else {
        StaysOnTrack(t, steps[n - 1], steps[k].entry, steps[k].text);
      }
    }
  }

  lemma {:induction false} DirectIsLast(steps: seq<Step>, k: nat, n: nat)
    requires k < n <= |steps| && steps[k].Update? && steps[k].text != ""
    requires forall i :: k < i < n ==> !(steps[i].Update? && steps[i].entry == steps[k].entry)
    ensures var d := DirectView(steps, n); steps[k].entry in d && d[steps[k].entry] == steps[k].text
  {
    if k < n - 1 {
      DirectIsLast(steps, k, n - 1);
    }
  }

  /**
    * Every run, whenever its updates land: once the queue is drained on an open socket, the client
    * is current on an updated entry, and has what sending every update would have shown, if and
    * only if its last update did not land between generating and erasing it, or changed nothing
    * for the client. Only an empty last text is current without being shown.
    */
  lemma {:induction false} DrainedIsCurrentIff(s: Session, steps: seq<Step>, k: nat)
    requires Opened(s) && k < |steps| && steps[k].Update?
    requires forall i :: k < i < |steps| ==> !(steps[i].Update? && steps[i].entry == steps[k].entry)
    requires var t := Run(s, steps, |steps|); t.queue == [] && t.open
    ensures var e, text, b := steps[k].entry, steps[k].text, Run(s, steps, k);
            var t, kept := Run(s, steps, |steps|), !HitsBusy(b, steps[k]) || TurnShows(b) == Some(text);
            && (Current(t, e) <==> text == "" || kept)
            && (text != "" ==> (SameFor(e, t.view, DirectView(steps, |steps|)) <==> kept))
  {
    AfterLastUpdate(s, steps, k, |steps|);
    RunIsSound(s, steps, |steps|);
    if steps[k].text != "" {
      DirectIsLast(steps, k, |steps|);
    }
  }

  class EventSourceSession {
    var queue: seq<Entry>
    var open: bool
    var outbox: seq<string>                  // frames sent completely
    ghost var view: map<Entry, CString>

    constructor ()
      ensures queue == [] && open && outbox == [] && view == map[]
    {
      queue, open, outbox, view := [], true, [], map[];
    }

    ghost function View(world: World): Session
      reads this
    {
      Session(queue, open, Idle, world, view)
    }

    method DeqPushBackWithDedup(e: Entry)
      modifies this`queue
      ensures queue == PushDedup(old(queue), e)
    {
      for i := 0 to |queue|
        invariant queue == old(queue) && forall j :: 0 <= j < i ==> queue[j] != e
      {
        if queue[i] == e {
          return;
        }
      }
      queue := queue + [e];
    }

    method DeferrableSendState(source: nat, generator: nat)
      modifies this`queue
      ensures queue == PushDedup(old(queue), Entry(source, generator))
    {
      DeqPushBackWithDedup(Entry(source, generator));
    }

    /** A chunk is sent completely or the socket is closed. */
    method SendRaw(chunk: string, completes: bool) returns (sent: bool)
      modifies this`open, this`outbox
      ensures sent == open == (old(open) && completes)
      ensures outbox == old(outbox) + if sent then [chunk] else []
    {
      if !open {
        return false;
      }
      if !completes {
        open := false;
        return false;
      }
      outbox := outbox + [chunk];
      return true;
    }

    /** Frames leave whole, in queue order; an entry leaves the queue only after its frame was
        sent or its generator produced nothing. */
    method ProcessDeferredQueue(world: World, sends: seq<bool>)
      modifies this
      ensures View(world) == Drain(old(View(world)), sends)
      ensures outbox == old(outbox) + if old(open) then DrainFrames(old(queue), world, sends) else []
      ensures open ==> queue == [] || !old(open)
    {
      var left := sends;
      ghost var now := View(world);
      ghost var goal, frames := Drain(now, sends), outbox + DrainFrames(queue, world, sends);
      while queue != []
        invariant now == View(world) && Drain(now, left) == goal
        invariant open == old(open)
        invariant outbox + DrainFrames(queue, world, left) == frames
        invariant !open ==> outbox == old(outbox)
        decreases |queue|
      {
        if !open {
          return;
        }
        var e := queue[0];
        var text := Render(world, e);
        DrainFront(now, left, outbox);
        if text != "" {
          var frame := BuildSseFrame(text, Some("state"), 0, 0);
          var sent := SendRaw(frame, left != [] && left[0]);
          if !sent {
            return;
          }
          left := left[1..];
          view := view[e := text];
        }
        queue := queue[1..];
        now := View(world);
      }
    }
  }

  lemma {:induction false} DrainFront(s: Session, sends: seq<bool>, outbox: seq<string>)
    requires s.busy.Idle? && s.queue != [] && s.open
    ensures var text, rest := Render(s.world, s.queue[0]), s.queue[1..];
            if text == "" then
              && Drain(s, sends) == Drain(s.(queue := rest), sends)
              && DrainFrames(s.queue, s.world, sends) == DrainFrames(rest, s.world, sends)
            else if sends == [] || !sends[0] then
              && Drain(s, sends) == s.(open := false)
              && DrainFrames(s.queue, s.world, sends) == []
            else
              && Drain(s, sends) == Drain(s.(view := s.view[s.queue[0] := text], queue := rest), sends[1..])
              && outbox + DrainFrames(s.queue, s.world, sends) ==
                 outbox + [StateFrame(text)] + DrainFrames(rest, s.world, sends[1..])
  {
  }
}
