/**
  * The proxy's resumable stream of a connection's service database
  * (components/bluetooth_proxy/bluetooth_connection.cpp, bluetooth_proxy.cpp).
  */
module ServiceStream {
  import opened Common
  import opened Uuid
  import opened Discovery

  const DONE_SENDING_SERVICES := -2
  const INIT_SENDING_SERVICES := -3
  const MAX_PACKET_SIZE := 1360

  // ----- the wire form of a service -----

  /** A GATT UUID in a response: two 64-bit words, or a short value for efficient clients. */
  datatype WireUuid = Words(high: nat, low: nat) | ShortUuid(value: nat)
  datatype DescriptorResponse = DescriptorResponse(uuid: WireUuid, handle: Uint16)
  datatype CharacteristicResponse = CharacteristicResponse(uuid: WireUuid, handle: Uint16, properties: Byte,
                                                           descriptors: seq<DescriptorResponse>)
  datatype ServiceResponse = ServiceResponse(uuid: WireUuid, handle: Uint16, characteristics: seq<CharacteristicResponse>)

  datatype Message = ServicesMessage(services: seq<ServiceResponse>) | ServicesDone | NotConnectedError

  type StreamUuid = u: BleUuid | Sized(u) witness FromUint16(0)

  /** `fill_gatt_uuid`. */
  function FillGattUuid(u: StreamUuid, efficient: bool): WireUuid {
    var e := GetUuid(u);
    if !efficient || e.Uuid128? then Words(Fill128bitUuidArray(e).0, Fill128bitUuidArray(e).1)
    else if e.Uuid16? then ShortUuid(e.v16)
    else ShortUuid(e.v32)
  }

  /** The 128-bit value a client reads back from a response's UUID. */
  function WireValue(w: WireUuid): nat {
    match w
    case Words(high, low) => high * 0x1_0000_0000_0000_0000 + low
    case ShortUuid(v) => BASE_UUID + v * 0x1_0000_0000_0000_0000_0000_0000
  }

  /** Both encodings carry the full UUID. */
  lemma {:induction false} WireUuidIsExpansion(u: StreamUuid, efficient: bool)
    ensures WireValue(FillGattUuid(u, efficient)) == LittleEndian(As128bit(u).raw)
  {
    PackedWordsAreExpansion(u);
    ExpansionIsBaseUuid(u);
  }

  /** The short form is for efficient clients and for UUIDs of two and four bytes. */
  lemma {:induction false} ShortFormIff(u: StreamUuid, efficient: bool)
    ensures FillGattUuid(u, efficient).ShortUuid? <==> efficient && u.len in {2, 4}
  {
    var e := GetUuid(u);
  }

  // ----- one batch -----

  /** Protobuf sizes are outside the model: any base size and any size per service. */
  datatype Sizes = Sizes(base: nat, of: ServiceResponse -> nat)

  function Estimate(s: ServiceResponse): nat {
    25 + |s.characteristics| * 60
  }

  /** Size of a response holding services from..to. */
  function SizeOf(z: Sizes, ss: seq<ServiceResponse>, from: nat, to: nat): nat
    requires from <= to <= |ss|
  {
    if from == to then z.base else SizeOf(z, ss, from, to - 1) + z.of(ss[to - 1]) + 1
  }

  /** Service `to` may join a batch started at `from`. */
  predicate Joins(z: Sizes, ss: seq<ServiceResponse>, from: nat, to: nat)
    requires from <= to < |ss|
  {
    to == from || SizeOf(z, ss, from, to) + Estimate(ss[to]) <= MAX_PACKET_SIZE
  }

  /** Where the batch started at `from` ends, having reached `to`. */
  function BatchEnd(z: Sizes, ss: seq<ServiceResponse>, from: nat, to: nat): (e: nat)
    requires from <= to <= |ss|
    ensures to <= e <= |ss|
    ensures to == from < |ss| ==> from < e
    decreases |ss| - to
  {
    if to < |ss| && Joins(z, ss, from, to) then BatchEnd(z, ss, from, to + 1) else to
  }

  lemma {:induction false} BatchJoins(z: Sizes, ss: seq<ServiceResponse>, from: nat, to: nat)
    requires from <= to <= |ss|
    ensures var e := BatchEnd(z, ss, from, to);
            (forall k :: to <= k < e ==> Joins(z, ss, from, k)) && (e < |ss| ==> !Joins(z, ss, from, e))
    decreases |ss| - to
  {
    if to < |ss| && Joins(z, ss, from, to) {
      BatchJoins(z, ss, from, to + 1);
    }
  }

  // ----- the stream as a machine -----

  datatype Stream = Stream(
    sendService: int,                    // the int16 cursor
    services: seq<ServiceResponse>,      // the cached tree, as it will be sent
    subscribed: bool,                    // an API connection is present
    connected: bool,                     // the client is ESTABLISHED
    log: seq<Message>)

  function Int16(v: int): int {
    (v + 0x8000) % 0x1_0000 - 0x8000
  }

  /** One loop() of a connection with an address. */
  function Tick(z: Sizes, s: Stream): Stream {
    var n := |s.services|;
    if !(0 <= s.sendService <= Int16(n)) then s
    else if s.sendService >= n then
      s.(sendService := DONE_SENDING_SERVICES, services := [], log := if s.subscribed then s.log + [ServicesDone] else s.log)
    else if !s.subscribed then s.(sendService := DONE_SENDING_SERVICES)
    else
      var e := Min(BatchEnd(z, s.services, s.sendService, s.sendService), 0x8000);   // the cursor wraps after 32767
      s.(sendService := Int16(e), log := s.log + [ServicesMessage(s.services[s.sendService..e])])
  }

  function Send(s: Stream, m: Message): Stream {
    if s.subscribed then s.(log := s.log + [m]) else s
  }

  /** `bluetooth_gatt_send_services`. */
  function Request(s: Stream): Stream {
    if !s.connected then Send(s, NotConnectedError)
    else if s.services == [] then Send(s, ServicesDone)
    else if s.sendService == INIT_SENDING_SERVICES then s.(sendService := 0)
    else s
  }

  /** DISCONNECTED: the tree is released and the cursor reset; no services-done is sent. */
  function Disconnect(s: Stream): Stream {
    s.(services := [], sendService := INIT_SENDING_SERVICES, connected := false)
  }

  function Ticks(z: Sizes, s: Stream, n: nat): Stream {
    if n == 0 then s else Tick(z, Ticks(z, s, n - 1))
  }

  // ----- an uninterrupted stream -----

  /** The batches of the services from `i` on. */
  function Batches(z: Sizes, ss: seq<ServiceResponse>, i: nat): (b: seq<seq<ServiceResponse>>)
    requires i <= |ss|
    ensures |b| <= |ss| - i
    decreases |ss| - i
  {
    if i == |ss| then []
    else
      var e := BatchEnd(z, ss, i, i);
      [ss[i..e]] + Batches(z, ss, e)
  }

  function AsMessages(bs: seq<seq<ServiceResponse>>): (ms: seq<Message>)
    ensures |ms| == |bs|
  {
    seq(|bs|, i requires 0 <= i < |bs| => ServicesMessage(bs[i]))
  }

  lemma {:induction false} BatchesCover(z: Sizes, ss: seq<ServiceResponse>, i: nat)
    requires i <= |ss|
    ensures Flatten(Batches(z, ss, i)) == ss[i..]
    ensures forall k :: 0 <= k < |Batches(z, ss, i)| ==> Batches(z, ss, i)[k] != []
    decreases |ss| - i
  {
    if i < |ss| {
      var e := BatchEnd(z, ss, i, i);
      BatchesCover(z, ss, e);
      assert ss[i..] == ss[i..e] + ss[e..];
      assert ([ss[i..e]] + Batches(z, ss, e))[1..] == Batches(z, ss, e);
    }
  }

  /** Where the k-th batch starts. */
  function Start(z: Sizes, ss: seq<ServiceResponse>, k: nat): (i: nat)
    requires k <= |Batches(z, ss, 0)|
    ensures i <= |ss|
  {
    if k == 0 then 0 else BatchEnd(z, ss, Start(z, ss, k - 1), Start(z, ss, k - 1))
  }

  lemma {:induction false} StartSplits(z: Sizes, ss: seq<ServiceResponse>, k: nat)
    requires k <= |Batches(z, ss, 0)|
    ensures Batches(z, ss, 0)[k..] == Batches(z, ss, Start(z, ss, k))
    ensures k < |Batches(z, ss, 0)| ==>
              && Start(z, ss, k) < |ss|
              && Batches(z, ss, 0)[k] == ss[Start(z, ss, k)..BatchEnd(z, ss, Start(z, ss, k), Start(z, ss, k))]
    ensures k == |Batches(z, ss, 0)| ==> Start(z, ss, k) == |ss|
  {
    var all := Batches(z, ss, 0);
    if k > 0 {
      StartSplits(z, ss, k - 1);
      assert all[k - 1..][1..] == all[k..];
    } else {
      assert all[0..] == all;
    }
    var i := Start(z, ss, k);
    if k < |all| {
      assert all[k] == all[k..][0];
    }
  }

  lemma {:induction false} TickSends(z: Sizes, s: Stream)
    requires 0 <= s.sendService < |s.services| < 0x8000 && s.subscribed
    ensures var e := BatchEnd(z, s.services, s.sendService, s.sendService);
            Tick(z, s) == s.(sendService := e, log := s.log + [ServicesMessage(s.services[s.sendService..e])])
  {
  }

  lemma {:induction false} TickFinishes(z: Sizes, s: Stream)
    requires s.sendService == |s.services| < 0x8000 && s.subscribed
    ensures Tick(z, s) == s.(sendService := DONE_SENDING_SERVICES, services := [], log := s.log + [ServicesDone])
  {
  }

  lemma {:induction false} MessagesSnoc(log: seq<Message>, bs: seq<seq<ServiceResponse>>, k: nat)
    requires 0 < k <= |bs|
    ensures log + AsMessages(bs[..k]) == (log + AsMessages(bs[..k - 1])) + [ServicesMessage(bs[k - 1])]
  {
    assert AsMessages(bs[..k]) == AsMessages(bs[..k - 1]) + [ServicesMessage(bs[k - 1])];
  }

  /** The stream after k batches. */
  function After(z: Sizes, s: Stream, k: nat): Stream
    requires k <= |Batches(z, s.services, 0)|
  {
    s.(sendService := Start(z, s.services, k), log := s.log + AsMessages(Batches(z, s.services, 0)[..k]))
  }

  lemma {:induction false} StreamStep(z: Sizes, s: Stream, k: nat)
    requires s.sendService == 0 && s.subscribed && 0 < |s.services| < 0x8000
    requires k <= |Batches(z, s.services, 0)|
    ensures Ticks(z, s, k) == After(z, s, k)
  {
    var bs := Batches(z, s.services, 0);
    if k == 0 {
      assert s.log + AsMessages(bs[..0]) == s.log;
    } else {
      StreamStep(z, s, k - 1);
      StartSplits(z, s.services, k - 1);
      TickSends(z, After(z, s, k - 1));
      MessagesSnoc(s.log, bs, k);
    }
  }

  lemma {:induction false} DoneIsFinal(z: Sizes, s: Stream, n: nat)
    requires s.sendService < 0
    ensures Ticks(z, s, n) == s
  {
    if n > 0 {
      DoneIsFinal(z, s, n - 1);
    }
  }

  lemma {:induction false} TicksAdd(z: Sizes, s: Stream, a: nat, b: nat)
    ensures Ticks(z, s, a + b) == Ticks(z, Ticks(z, s, a), b)
  {
    if b > 0 {
      var m := a + (b - 1);
      TicksAdd(z, s, a, b - 1);
      assert Ticks(z, s, m + 1) == Tick(z, Ticks(z, s, m));
    }
  }

  lemma {:induction false} StreamEnds(z: Sizes, s: Stream)
    requires s.sendService == INIT_SENDING_SERVICES && s.subscribed && s.connected && 0 < |s.services| < 0x8000
    ensures var bs := Batches(z, s.services, 0);
            var t := Ticks(z, Request(s), |bs| + 1);
            t.sendService == DONE_SENDING_SERVICES && t.log == s.log + AsMessages(bs) + [ServicesDone]
  {
    var bs := Batches(z, s.services, 0);
    var r := Request(s);
    StreamStep(z, r, |bs|);
    StartSplits(z, s.services, |bs|);
    TickFinishes(z, Ticks(z, r, |bs|));
    assert bs[..|bs|] == bs;
  }

  /** After an accepted request on at most 32767 services, successive loops send non-empty
      batches that concatenate to the service list in order, then exactly one services-done,
      within one loop per service plus one; later loops send nothing. */
  lemma {:induction false} StreamsEverything(z: Sizes, s: Stream, extra: nat)
    requires s.sendService == INIT_SENDING_SERVICES && s.subscribed && s.connected && 0 < |s.services| < 0x8000
    ensures var bs := Batches(z, s.services, 0);
            && Flatten(bs) == s.services
            && (forall k :: 0 <= k < |bs| ==> bs[k] != [])
            && |bs| + 1 <= |s.services| + 1
            && Ticks(z, Request(s), |bs| + 1 + extra).log == s.log + AsMessages(bs) + [ServicesDone]
            && (forall k: nat :: k <= |bs| ==> Ticks(z, Request(s), k).log == s.log + AsMessages(bs[..k]))
  {
    var bs := Batches(z, s.services, 0);
    var r := Request(s);
    BatchesCover(z, s.services, 0);
    assert s.services[0..] == s.services && bs[..|bs|] == bs;
    forall k: nat | k <= |bs| ensures Ticks(z, r, k).log == s.log + AsMessages(bs[..k]) {
      StreamStep(z, r, k);
    }
    StreamEnds(z, s);
    TicksAdd(z, r, |bs| + 1, extra);
    DoneIsFinal(z, Ticks(z, r, |bs| + 1), extra);
  }

  /** Each batch is as long as the estimate of 25 bytes a service and 60 a characteristic allows in
      1360 bytes, and no longer. */
  lemma {:induction false} BatchIsGreedy(z: Sizes, ss: seq<ServiceResponse>, i: nat)
    requires i < |ss|
    ensures var e := BatchEnd(z, ss, i, i);
            && (forall k :: i < k < e ==> SizeOf(z, ss, i, k) + 25 + 60 * |ss[k].characteristics| <= 1360)
            && (e < |ss| ==> SizeOf(z, ss, i, e) + 25 + 60 * |ss[e].characteristics| > 1360)
  {
    var e := BatchEnd(z, ss, i, i);
    BatchJoins(z, ss, i, i);
    forall k | i < k < e ensures SizeOf(z, ss, i, k) + 25 + 60 * |ss[k].characteristics| <= 1360 {
      assert Joins(z, ss, i, k);
    }
  }

  function DoneCount(log: seq<Message>, n: nat): nat
    requires n <= |log|
  {
    if n == 0 then 0 else DoneCount(log, n - 1) + if log[n - 1].ServicesDone? then 1 else 0
  }

  lemma {:induction false} DoneCountPrefix(a: seq<Message>, b: seq<Message>, n: nat)
    requires n <= |a| && n <= |b| && forall i :: 0 <= i < n ==> a[i] == b[i]
    ensures DoneCount(a, n) == DoneCount(b, n)
  {
    if n > 0 {
      DoneCountPrefix(a, b, n - 1);
    }
  }

  /** With more services than the cursor can count, no loop sends services-done. */
  ghost predicate Stalled(s: Stream, dones: nat) {
    |s.services| >= 0x8000 && -0x8000 <= s.sendService < 0x8000 && DoneCount(s.log, |s.log|) == dones
  }

  lemma {:induction false} TickStalled(z: Sizes, s: Stream, dones: nat)
    requires Stalled(s, dones)
    ensures Stalled(Tick(z, s), dones)
  {
    var t := Tick(z, s);
    DoneCountPrefix(s.log, t.log, |s.log|);
  }

  lemma {:induction false} TooManyNeverDone(z: Sizes, s: Stream, n: nat, dones: nat)
    requires Stalled(s, dones)
    ensures Stalled(Ticks(z, s, n), dones)
  {
    if n > 0 {
      TooManyNeverDone(z, s, n - 1, dones);
      TickStalled(z, Ticks(z, s, n - 1), dones);
    }
  }

  lemma {:induction false} NoDoneInBatches(bs: seq<seq<ServiceResponse>>, log: seq<Message>, n: nat)
    requires n <= |bs|
    ensures DoneCount(log + AsMessages(bs), |log| + n) == DoneCount(log, |log|)
  {
    if n == 0 {
      DoneCountPrefix(log + AsMessages(bs), log, |log|);
    } else {
      NoDoneInBatches(bs, log, n - 1);
      assert (log + AsMessages(bs))[|log| + n - 1] == AsMessages(bs)[n - 1];
    }
  }

  lemma {:induction false} FewAreDone(z: Sizes, s: Stream) returns (n: nat)
    requires s.sendService == INIT_SENDING_SERVICES && s.subscribed && s.connected && 0 < |s.services| < 0x8000
    ensures DoneCount(Ticks(z, Request(s), n).log, |Ticks(z, Request(s), n).log|) == DoneCount(s.log, |s.log|) + 1
  {
    var bs := Batches(z, s.services, 0);
    n := |bs| + 1;
    StreamEnds(z, s);
    OneDoneAfterBatches(bs, s.log);
  }

  lemma {:induction false} OneDoneAfterBatches(bs: seq<seq<ServiceResponse>>, log: seq<Message>)
    ensures var l := log + AsMessages(bs) + [ServicesDone]; DoneCount(l, |l|) == DoneCount(log, |log|) + 1
  {
    NoDoneInBatches(bs, log, |bs|);
    Appended(log + AsMessages(bs), ServicesDone, 0);
  }

  /** The signed cursor: an accepted request is ever followed by services-done if and only if
      there are at most 32767 services; with more the stream stalls for good. */
  lemma {:induction false} DoneIffFits(z: Sizes, s: Stream)
    requires s.sendService == INIT_SENDING_SERVICES && s.subscribed && s.connected && s.services != []
    ensures (exists n: nat :: DoneCount(Ticks(z, Request(s), n).log, |Ticks(z, Request(s), n).log|) > DoneCount(s.log, |s.log|))
            <==> |s.services| <= 32767
  {
    if |s.services| <= 32767 {
      var n := FewAreDone(z, s);
      assert DoneCount(Ticks(z, Request(s), n).log, |Ticks(z, Request(s), n).log|) > DoneCount(s.log, |s.log|);
    } else {
      forall n: nat ensures DoneCount(Ticks(z, Request(s), n).log, |Ticks(z, Request(s), n).log|) == DoneCount(s.log, |s.log|) {
        TooManyNeverDone(z, Request(s), n, DoneCount(s.log, |s.log|));
      }
    }
  }

  // ----- an interrupted stream -----

  datatype Step =
    | LoopStep
    | RequestStep                            // the API client asks for the services again
    | TeardownStep                           // the client leaves ESTABLISHED; DISCONNECTED is still to come
    | DisconnectStep
    | SubscriptionStep(subscribed: bool)

  function Next(z: Sizes, s: Stream, step: Step): Stream {
    match step
    case LoopStep => Tick(z, s)
    case RequestStep => Request(s)
    case TeardownStep => s.(connected := false)
    case DisconnectStep => Disconnect(s)
    case SubscriptionStep(b) => s.(subscribed := b)
  }

  function Run(z: Sizes, s: Stream, steps: seq<Step>, n: nat): Stream
    requires n <= |steps|
  {
    if n == 0 then s else Next(z, Run(z, s, steps, n - 1), steps[n - 1])
  }

  /** Services sent by the messages from `from` on. */
  function SentFrom(log: seq<Message>, from: nat, n: nat): seq<ServiceResponse>
    requires from <= n <= |log|
  {
    if n == from then []
    else SentFrom(log, from, n - 1) + if log[n - 1].ServicesMessage? then log[n - 1].services else []
  }

  lemma {:induction false} SentPrefix(a: seq<Message>, b: seq<Message>, from: nat, n: nat)
    requires from <= n <= |a| && n <= |b| && forall i :: 0 <= i < n ==> a[i] == b[i]
    ensures SentFrom(a, from, n) == SentFrom(b, from, n)
  {
    if n > from {
      SentPrefix(a, b, from, n - 1);
    }
  }

  lemma {:induction false} Appended(log: seq<Message>, m: Message, from: nat)
    requires from <= |log|
    ensures SentFrom(log + [m], from, |log| + 1) == SentFrom(log, from, |log|) + if m.ServicesMessage? then m.services else []
    ensures DoneCount(log + [m], |log| + 1) == DoneCount(log, |log|) + if m.ServicesDone? then 1 else 0
  {
    SentPrefix(log + [m], log, from, |log|);
    DoneCountPrefix(log + [m], log, |log|);
  }

  function Requests(steps: seq<Step>, n: nat): nat
    requires n <= |steps|
  {
    if n == 0 then 0 else Requests(steps, n - 1) + if steps[n - 1].RequestStep? then 1 else 0
  }

  /** Where the stream can be, with what was sent since message `from` and at most `extra`
      services-done besides the stream's own: on the list, with exactly the services before the
      cursor sent; stopped on it because the API client was gone; at its end, everything sent
      and the tree released; or disconnected. */
  ghost predicate Streaming(s: Stream, ss: seq<ServiceResponse>, from: nat, dones: nat, extra: nat) {
    && from <= |s.log|
    && ss != []
    && SentFrom(s.log, from, |s.log|) <= ss
    && if s.sendService >= 0 then
         s.services == ss && SentFrom(s.log, from, |s.log|) == ss[..Min(s.sendService, |ss|)]
         && s.sendService <= |ss| && DoneCount(s.log, |s.log|) == dones
       else if s.services == ss then
         s.sendService == DONE_SENDING_SERVICES && DoneCount(s.log, |s.log|) == dones
       else
         && s.services == []
         && dones <= DoneCount(s.log, |s.log|) <= dones + 1 + extra
         && (DoneCount(s.log, |s.log|) > dones || s.connected ==> SentFrom(s.log, from, |s.log|) == ss)
  }

  lemma {:induction false} TickStreams(z: Sizes, s: Stream, ss: seq<ServiceResponse>, from: nat, dones: nat, extra: nat)
    requires Streaming(s, ss, from, dones, extra) && |ss| < 0x8000
    ensures Streaming(Tick(z, s), ss, from, dones, extra)
  {
    if s.sendService >= 0 && s.subscribed {
      if s.sendService == |ss| {
        Appended(s.log, ServicesDone, from);
      } else {
        TickSends(z, s);
        var e := BatchEnd(z, ss, s.sendService, s.sendService);
        Appended(s.log, ServicesMessage(ss[s.sendService..e]), from);
        TakeFurther(ss, s.sendService, e);
      }
    }
  }

  lemma {:induction false} TakeFurther<T>(ss: seq<T>, i: nat, j: nat)
    requires i <= j <= |ss|
    ensures ss[..i] + ss[i..j] == ss[..j]
  {
  }

  lemma {:induction false} RequestStreams(s: Stream, ss: seq<ServiceResponse>, from: nat, dones: nat, extra: nat)
    requires Streaming(s, ss, from, dones, extra)
    ensures Streaming(Request(s), ss, from, dones, extra + 1)
  {
    if s.subscribed && (!s.connected || s.services == []) {
      Appended(s.log, if !s.connected then NotConnectedError else ServicesDone, from);
    }
  }

  lemma {:induction false} RunStreams(z: Sizes, s: Stream, steps: seq<Step>, n: nat, ss: seq<ServiceResponse>, from: nat, dones: nat)
    requires n <= |steps| && Streaming(s, ss, from, dones, 0) && |ss| < 0x8000
    ensures Streaming(Run(z, s, steps, n), ss, from, dones, Requests(steps, n))
  {
    if n > 0 {
      RunStreams(z, s, steps, n - 1, ss, from, dones);
      var t := Run(z, s, steps, n - 1);
      match steps[n - 1]
      case LoopStep => TickStreams(z, t, ss, from, dones, Requests(steps, n - 1));
      case RequestStep => RequestStreams(t, ss, from, dones, Requests(steps, n - 1));
      case TeardownStep =>
      case DisconnectStep =>
      case SubscriptionStep(_) =>
    }
  }

  /** However loops, further requests, disconnects and subscription changes interleave after an
      accepted request, what was sent is a prefix of the service list in order, and services-done
      is sent only after the whole list: once by the stream, and once more by each request that
      finds the tree released. */
  lemma {:induction false} InterruptedStream(z: Sizes, s: Stream, steps: seq<Step>)
    requires s.sendService == INIT_SENDING_SERVICES && s.connected && 0 < |s.services| < 0x8000
    ensures var t := Run(z, Request(s), steps, |steps|);
            && |s.log| <= |t.log|
            && SentFrom(t.log, |s.log|, |t.log|) <= s.services
            && DoneCount(s.log, |s.log|) <= DoneCount(t.log, |t.log|) <= DoneCount(s.log, |s.log|) + 1 + Requests(steps, |steps|)
            && (DoneCount(t.log, |t.log|) > DoneCount(s.log, |s.log|) ==> SentFrom(t.log, |s.log|, |t.log|) == s.services)
  {
    RunStreams(z, Request(s), steps, |steps|, s.services, |s.log|, DoneCount(s.log, |s.log|));
  }

  function CountMessages(log: seq<Message>, m: Message, n: nat): nat
    requires n <= |log|
  {
    if n == 0 then 0 else CountMessages(log, m, n - 1) + if log[n - 1] == m then 1 else 0
  }

  lemma {:induction false} CountAppended(log: seq<Message>, more: seq<Message>, m: Message, n: nat)
    requires n <= |log|
    ensures CountMessages(log + more, m, n) == CountMessages(log, m, n)
    ensures |more| == 1 && n == |log| ==>
              CountMessages(log + more, m, n + 1) == CountMessages(log, m, n) + if more[0] == m then 1 else 0
  {
    if n > 0 {
      CountAppended(log, more, m, n - 1);
    }
  }

  /** A step owes services-done: a request that finds the client connected and the tree released, or
      a loop that has come to the end of the list. */
  predicate OwesDone(s: Stream, step: Step) {
    s.subscribed && ((step.RequestStep? && s.connected && s.services == [])
                     || (step.LoopStep? && s.sendService >= 0 && s.sendService == |s.services|))
  }

  /** A step owes an error: a request that finds the client not connected. */
  predicate OwesError(s: Stream, step: Step) {
    s.subscribed && step.RequestStep? && !s.connected
  }

  function DonesOwed(z: Sizes, s: Stream, steps: seq<Step>, n: nat): nat
    requires n <= |steps|
  {
    if n == 0 then 0 else DonesOwed(z, s, steps, n - 1) + if OwesDone(Run(z, s, steps, n - 1), steps[n - 1]) then 1 else 0
  }

  function ErrorsOwed(z: Sizes, s: Stream, steps: seq<Step>, n: nat): nat
    requires n <= |steps|
  {
    if n == 0 then 0 else ErrorsOwed(z, s, steps, n - 1) + if OwesError(Run(z, s, steps, n - 1), steps[n - 1]) then 1 else 0
  }

  lemma {:induction false} StepPays(z: Sizes, s: Stream, step: Step)
    requires |s.services| < 0x8000 && s.sendService <= |s.services|
    ensures var t := Next(z, s, step);
            && CountMessages(t.log, ServicesDone, |t.log|) ==
               CountMessages(s.log, ServicesDone, |s.log|) + (if OwesDone(s, step) then 1 else 0)
            && CountMessages(t.log, NotConnectedError, |t.log|) ==
               CountMessages(s.log, NotConnectedError, |s.log|) + (if OwesError(s, step) then 1 else 0)
            && |t.services| < 0x8000 && t.sendService <= |t.services|
  {
    var t := Next(z, s, step);
    if |t.log| == |s.log| + 1 {
      var m := t.log[|s.log|];
      CountAppended(s.log, [m], ServicesDone, |s.log|);
      CountAppended(s.log, [m], NotConnectedError, |s.log|);
      assert t.log == s.log + [m];
    }
  }

  /** Every request is answered: in any run, services-done and the not-connected error are sent
      exactly as often as they are owed. */
  lemma {:induction false} AnswersAreOwed(z: Sizes, s: Stream, steps: seq<Step>, n: nat)
    requires n <= |steps| && |s.services| < 0x8000 && s.sendService <= |s.services|
    ensures var t := Run(z, s, steps, n);
            && CountMessages(t.log, ServicesDone, |t.log|) ==
               CountMessages(s.log, ServicesDone, |s.log|) + DonesOwed(z, s, steps, n)
            && CountMessages(t.log, NotConnectedError, |t.log|) ==
               CountMessages(s.log, NotConnectedError, |s.log|) + ErrorsOwed(z, s, steps, n)
            && |t.services| < 0x8000 && t.sendService <= |t.services|
  {
    if n > 0 {
      AnswersAreOwed(z, s, steps, n - 1);
      StepPays(z, Run(z, s, steps, n - 1), steps[n - 1]);
    }
  }

  /** After a disconnect every request is refused and nothing else is sent. */
  lemma {:induction false} OnlyRefusals(z: Sizes, s: Stream, steps: seq<Step>, k: nat, n: nat)
    requires k <= n <= |steps| && Run(z, s, steps, k).sendService < 0 && !Run(z, s, steps, k).connected
    ensures var before, t := Run(z, s, steps, k).log, Run(z, s, steps, n);
            && t.sendService < 0 && !t.connected && before <= t.log
            && forall i :: |before| <= i < |t.log| ==> t.log[i] == NotConnectedError
  {
    if n > k {
      OnlyRefusals(z, s, steps, k, n - 1);
    }
  }

  /** A disconnect ends the stream: neither services nor services-done are sent after it. */
  lemma {:induction false} DisconnectEndsStream(z: Sizes, s: Stream, steps: seq<Step>, k: nat)
    requires k < |steps| && steps[k].DisconnectStep?
    ensures var before, after := Run(z, s, steps, k).log, Run(z, s, steps, |steps|).log;
            before <= after && forall i :: |before| <= i < |after| ==> after[i] == NotConnectedError
  {
    OnlyRefusals(z, s, steps, k + 1, |steps|);
  }

  /** If the API client is gone when the stream comes to its next batch, the stream stops on the
      list, keeping the tree, and until a disconnect no subscription or request starts it again. */
  lemma {:induction false} LostClientStopsStream(z: Sizes, s: Stream, steps: seq<Step>, n: nat)
    requires 0 <= s.sendService < |s.services| < 0x8000 && !s.subscribed
    requires n <= |steps| && forall i :: 0 <= i < |steps| ==> !steps[i].DisconnectStep?
    ensures var t := Run(z, Tick(z, s), steps, n);
            && t.sendService == DONE_SENDING_SERVICES && t.services == s.services && s.log <= t.log
            && forall i :: |s.log| <= i < |t.log| ==> t.log[i] == NotConnectedError
  {
    if n > 0 {
      LostClientStopsStream(z, s, steps, n - 1);
    }
  }

  // ----- the connection object -----

  ghost predicate Sendable(tree: seq<DiscoveredService>) {
    forall i :: 0 <= i < |tree| ==> SendableService(tree[i])
  }

  ghost predicate SendableService(s: DiscoveredService) {
    Sized(s.uuid) && forall j :: 0 <= j < |s.characteristics| ==> SendableChar(s.characteristics[j])
  }

  ghost predicate SendableChar(c: DiscoveredCharacteristic) {
    Sized(c.uuid) && forall k :: 0 <= k < |c.descriptors| ==> Sized(c.descriptors[k].uuid)
  }

  ghost function DescriptorWire(d: DiscoveredDescriptor, efficient: bool): DescriptorResponse
    requires Sized(d.uuid)
  {
    DescriptorResponse(FillGattUuid(d.uuid, efficient), d.handle)
  }

  ghost function CharWire(c: DiscoveredCharacteristic, efficient: bool): CharacteristicResponse
    requires SendableChar(c)
  {
    CharacteristicResponse(FillGattUuid(c.uuid, efficient), c.handle, c.properties,
      seq(|c.descriptors|, k requires 0 <= k < |c.descriptors| => DescriptorWire(c.descriptors[k], efficient)))
  }

  ghost function ServiceWire(s: DiscoveredService, efficient: bool): ServiceResponse
    requires SendableService(s)
  {
    ServiceResponse(FillGattUuid(s.uuid, efficient), s.startHandle,
      seq(|s.characteristics|, j requires 0 <= j < |s.characteristics| => CharWire(s.characteristics[j], efficient)))
  }

  ghost function Wire(tree: seq<DiscoveredService>, efficient: bool): (w: seq<ServiceResponse>)
    requires Sendable(tree)
    ensures |w| == |tree|
  {
    seq(|tree|, i requires 0 <= i < |tree| => ServiceWire(tree[i], efficient))
  }

  // ----- what a client reads out of the responses -----

  /** One line of a service database read top to bottom, with the handle of what it is below. */
  datatype Line =
    | ServiceLine(value: nat, handle: Uint16)
    | CharacteristicLine(service: Uint16, value: nat, handle: Uint16, properties: Byte)
    | DescriptorLine(characteristic: Uint16, value: nat, handle: Uint16)

  function ResponseDescriptors(c: CharacteristicResponse, n: nat): seq<Line>
    requires n <= |c.descriptors|
  {
    if n == 0 then []
    else ResponseDescriptors(c, n - 1) + [DescriptorLine(c.handle, WireValue(c.descriptors[n - 1].uuid), c.descriptors[n - 1].handle)]
  }

  function ResponseCharacteristic(service: Uint16, c: CharacteristicResponse): seq<Line> {
    [CharacteristicLine(service, WireValue(c.uuid), c.handle, c.properties)] + ResponseDescriptors(c, |c.descriptors|)
  }

  function ResponseCharacteristics(s: ServiceResponse, n: nat): seq<Line>
    requires n <= |s.characteristics|
  {
    if n == 0 then [] else ResponseCharacteristics(s, n - 1) + ResponseCharacteristic(s.handle, s.characteristics[n - 1])
  }

  function ResponseLines(s: ServiceResponse): seq<Line> {
    [ServiceLine(WireValue(s.uuid), s.handle)] + ResponseCharacteristics(s, |s.characteristics|)
  }

  /** Everything the client reads out of a list of responses. */
  function AllResponseLines(ss: seq<ServiceResponse>): seq<Line> {
    Collected(ResponseLines, ss, |ss|)
  }

  /** The 128-bit value of a discovered UUID. */
  ghost function Expanded(u: BleUuid): nat {
    if Sized(u) then LittleEndian(As128bit(u).raw) else 0
  }

  ghost function TreeDescriptors(c: DiscoveredCharacteristic, n: nat): seq<Line>
    requires n <= |c.descriptors|
  {
    if n == 0 then []
    else TreeDescriptors(c, n - 1) + [DescriptorLine(c.handle, Expanded(c.descriptors[n - 1].uuid), c.descriptors[n - 1].handle)]
  }

  ghost function TreeCharacteristic(service: Uint16, c: DiscoveredCharacteristic): seq<Line> {
    [CharacteristicLine(service, Expanded(c.uuid), c.handle, c.properties)] + TreeDescriptors(c, |c.descriptors|)
  }

  ghost function TreeCharacteristics(s: DiscoveredService, n: nat): seq<Line>
    requires n <= |s.characteristics|
  {
    if n == 0 then [] else TreeCharacteristics(s, n - 1) + TreeCharacteristic(s.startHandle, s.characteristics[n - 1])
  }

  ghost function ServiceLines(s: DiscoveredService): seq<Line> {
    [ServiceLine(Expanded(s.uuid), s.startHandle)] + TreeCharacteristics(s, |s.characteristics|)
  }

  /** The same listing of a discovered tree. */
  ghost function TreeLines(tree: seq<DiscoveredService>): seq<Line> {
    Collected(ServiceLines, tree, |tree|)
  }

  lemma {:induction false} DescriptorsListed(c: DiscoveredCharacteristic, efficient: bool, n: nat)
    requires SendableChar(c) && n <= |c.descriptors|
    ensures ResponseDescriptors(CharWire(c, efficient), n) == TreeDescriptors(c, n)
  {
    if n > 0 {
      DescriptorsListed(c, efficient, n - 1);
      WireUuidIsExpansion(c.descriptors[n - 1].uuid, efficient);
    }
  }

  lemma {:induction false} CharacteristicListed(service: Uint16, c: DiscoveredCharacteristic, efficient: bool)
    requires SendableChar(c)
    ensures ResponseCharacteristic(service, CharWire(c, efficient)) == TreeCharacteristic(service, c)
  {
    DescriptorsListed(c, efficient, |c.descriptors|);
    WireUuidIsExpansion(c.uuid, efficient);
  }

  lemma {:induction false} CharacteristicsListed(s: DiscoveredService, r: ServiceResponse, n: nat)
    requires SendableService(s) && n <= |s.characteristics| == |r.characteristics| && r.handle == s.startHandle
    requires forall j :: 0 <= j < |s.characteristics| ==>
               ResponseCharacteristic(r.handle, r.characteristics[j]) == TreeCharacteristic(s.startHandle, s.characteristics[j])
    ensures ResponseCharacteristics(r, n) == TreeCharacteristics(s, n)
  {
    if n > 0 {
      CharacteristicsListed(s, r, n - 1);
    }
  }

  lemma {:induction false} ServiceListed(s: DiscoveredService, efficient: bool)
    requires SendableService(s)
    ensures ResponseLines(ServiceWire(s, efficient)) == ServiceLines(s)
  {
    var r := ServiceWire(s, efficient);
    forall j | 0 <= j < |s.characteristics|
      ensures ResponseCharacteristic(r.handle, r.characteristics[j]) == TreeCharacteristic(s.startHandle, s.characteristics[j])
    {
      CharacteristicListed(s.startHandle, s.characteristics[j], efficient);
    }
    CharacteristicsListed(s, r, |s.characteristics|);
    WireUuidIsExpansion(s.uuid, efficient);
  }

  lemma {:induction false} OneListed(tree: seq<DiscoveredService>, efficient: bool, i: nat)
    requires Sendable(tree) && i < |tree|
    ensures ResponseLines(Wire(tree, efficient)[i]) == ServiceLines(tree[i])
  {
    ServiceListed(tree[i], efficient);
  }

  lemma {:induction false} ListedWhenWire(s: DiscoveredService, r: ServiceResponse, efficient: bool)
    requires SendableService(s) && r == ServiceWire(s, efficient)
    ensures ResponseLines(r) == ServiceLines(s)
  {
    ServiceListed(s, efficient);
  }

  /** The responses list what the tree they were built from does. */
  lemma {:induction false} TreeListed(tree: seq<DiscoveredService>, efficient: bool)
    requires Sendable(tree)
    ensures AllResponseLines(Wire(tree, efficient)) == TreeLines(tree)
  {
    forall i | 0 <= i < |tree| ensures ResponseLines(Wire(tree, efficient)[i]) == ServiceLines(tree[i]) {
      OneListed(tree, efficient, i);
    }
    CollectedSame(ResponseLines, ServiceLines, Wire(tree, efficient), tree, |tree|);
  }

  lemma {:induction false} SentBatches(log: seq<Message>, bs: seq<seq<ServiceResponse>>, n: nat)
    requires n <= |bs|
    ensures SentFrom(log + AsMessages(bs[..n]), |log|, |log| + n) == Flatten(bs[..n])
  {
    if n > 0 {
      SentBatches(log, bs, n - 1);
      MessagesSnoc(log, bs, n);
      var before := log + AsMessages(bs[..n - 1]);
      Appended(before, ServicesMessage(bs[n - 1]), |log|);
      FlattenSnoc(bs[..n - 1], bs[n - 1]);
      assert bs[..n] == bs[..n - 1] + [bs[n - 1]];
    }
  }

  /** Services, then a single services-done. */
  predicate WholeStream(before: seq<Message>, log: seq<Message>) {
    && before < log && log[|log| - 1] == ServicesDone
    && forall i :: |before| <= i < |log| - 1 ==> log[i].ServicesMessage?
  }

  lemma {:induction false} BatchesThenDone(log: seq<Message>, bs: seq<seq<ServiceResponse>>)
    ensures var l := log + AsMessages(bs) + [ServicesDone];
            WholeStream(log, l) && SentFrom(l, |log|, |l|) == Flatten(bs)
  {
    assert bs[..|bs|] == bs;
    SentBatches(log, bs, |bs|);
    Appended(log + AsMessages(bs), ServicesDone, |log|);
  }

  lemma {:induction false} LastTick(z: Sizes, s: Stream, extra: nat)
    requires s.sendService == INIT_SENDING_SERVICES && s.subscribed && s.connected && 0 < |s.services| < 0x8000
    ensures var bs := Batches(z, s.services, 0);
            && Flatten(bs) == s.services
            && Ticks(z, Request(s), |s.services| + 1 + extra).log == s.log + AsMessages(bs) + [ServicesDone]
  {
    StreamsEverything(z, s, |s.services| - |Batches(z, s.services, 0)| + extra);
  }

  /** All that is sent, when the stream is not interrupted. */
  lemma {:induction false} AllIsSent(z: Sizes, s: Stream, extra: nat)
    requires s.sendService == INIT_SENDING_SERVICES && s.subscribed && s.connected && 0 < |s.services| < 0x8000
    ensures var t := Ticks(z, Request(s), |s.services| + 1 + extra);
            && WholeStream(s.log, t.log)
            && SentFrom(t.log, |s.log|, |t.log|) == s.services
  {
    LastTick(z, s, extra);
    BatchesThenDone(s.log, Batches(z, s.services, 0));
  }

  /** What the client of an uninterrupted stream reads is the discovered tree: every service,
      characteristic and descriptor once, in order, below its parent, with its full UUID, its handle
      and its properties, then one services-done. */
  lemma {:induction false} TreeIsStreamed(z: Sizes, s: Stream, tree: seq<DiscoveredService>, efficient: bool, extra: nat)
    requires Sendable(tree) && 0 < |tree| < 0x8000 && s.services == Wire(tree, efficient)
    requires s.sendService == INIT_SENDING_SERVICES && s.subscribed && s.connected
    ensures var t := Ticks(z, Request(s), |tree| + 1 + extra);
            && WholeStream(s.log, t.log)
            && AllResponseLines(SentFrom(t.log, |s.log|, |t.log|)) == TreeLines(tree)
  {
    AllIsSent(z, s, extra);
    TreeListed(tree, efficient);
  }

  method BuildCharacteristic(c: DiscoveredCharacteristic, efficient: bool) returns (cr: CharacteristicResponse)
    requires SendableChar(c)
    ensures cr == CharWire(c, efficient)
    ensures forall service :: ResponseCharacteristic(service, cr) == TreeCharacteristic(service, c)
  {
    var ds: seq<DescriptorResponse> := [];
    for k := 0 to |c.descriptors|
      invariant ds == CharWire(c, efficient).descriptors[..k]
    {
      ds := ds + [DescriptorResponse(FillGattUuid(c.descriptors[k].uuid, efficient), c.descriptors[k].handle)];
    }
    assert ds == CharWire(c, efficient).descriptors;
    cr := CharacteristicResponse(FillGattUuid(c.uuid, efficient), c.handle, c.properties, ds);
    forall service ensures ResponseCharacteristic(service, cr) == TreeCharacteristic(service, c) {
      CharacteristicListed(service, c, efficient);
    }
  }

  method BuildService(s: DiscoveredService, efficient: bool) returns (sr: ServiceResponse)
    requires SendableService(s)
    ensures sr == ServiceWire(s, efficient) && ResponseLines(sr) == ServiceLines(s)
  {
    var cs: seq<CharacteristicResponse> := [];
    for j := 0 to |s.characteristics|
      invariant |cs| == j && forall i :: 0 <= i < j ==> cs[i] == CharWire(s.characteristics[i], efficient)
    {
      var cr := BuildCharacteristic(s.characteristics[j], efficient);
      cs := cs + [cr];
    }
    assert cs == ServiceWire(s, efficient).characteristics;
    sr := ServiceResponse(FillGattUuid(s.uuid, efficient), s.startHandle, cs);
    ListedWhenWire(s, sr, efficient);
  }

  /** The batching loop: services join the response while the estimate fits; the 16-bit cursor
      also ends it when it wraps. */
  method FillBatch(services: seq<DiscoveredService>, from: nat, efficient: bool, sizes: Sizes)
    returns (resp: seq<ServiceResponse>, sendService: int)
    requires Sendable(services) && from < |services| && from < 0x8000
    ensures var ss := Wire(services, efficient);
            var e := Min(BatchEnd(sizes, ss, from, from), 0x8000);
            from < e && resp == ss[from..e] && sendService == Int16(e)
  {
    resp, sendService := [], from;
    var currentSize := sizes.base;
    ghost var ss := Wire(services, efficient);
    ghost var to: nat := from;
    while 0 <= sendService < |services|
      invariant from <= to <= |services|
      invariant (to < 0x8000 && sendService == to) || (to == 0x8000 && sendService == -0x8000)
      invariant resp == ss[from..to] && currentSize == SizeOf(sizes, ss, from, to)
      invariant BatchEnd(sizes, ss, from, from) == BatchEnd(sizes, ss, from, to)
      decreases |services| - to
    {
      var svc := services[sendService];
      var estimated := 25 + |svc.characteristics| * 60;
      if resp != [] && currentSize + estimated > MAX_PACKET_SIZE {
        break;
      }
      BatchGoesOn(sizes, ss, from, to);
      var serviceResp := BuildService(svc, efficient);
      resp := resp + [serviceResp];
      currentSize := currentSize + sizes.of(serviceResp) + 1;
      Int16Succ(sendService);
      sendService := Int16(sendService + 1);
      to := to + 1;
    }
    BatchStops(sizes, ss, from, to);
  }

  lemma {:induction false} BatchStops(z: Sizes, ss: seq<ServiceResponse>, from: nat, to: nat)
    requires from <= to <= |ss| && to <= 0x8000 && from < |ss| && from < 0x8000
    requires BatchEnd(z, ss, from, from) == BatchEnd(z, ss, from, to)
    requires to == |ss| || to == 0x8000 || !Joins(z, ss, from, to)
    ensures from < to == Min(BatchEnd(z, ss, from, from), 0x8000)
    ensures to == 0x8000 || Int16(to) == to
  {
  }

  lemma {:induction false} Int16Succ(v: int)
    requires 0 <= v < 0x8000
    ensures Int16(v) == v && Int16(v + 1) == if v == 0x7fff then -0x8000 else v + 1
  {
  }

  lemma {:induction false} BatchGoesOn(z: Sizes, ss: seq<ServiceResponse>, from: nat, to: nat)
    requires from <= to < |ss| && Joins(z, ss, from, to)
    ensures BatchEnd(z, ss, from, to) == BatchEnd(z, ss, from, to + 1)
    ensures SizeOf(z, ss, from, to + 1) == SizeOf(z, ss, from, to) + z.of(ss[to]) + 1
    ensures ss[from..to + 1] == ss[from..to] + [ss[to]]
  {
  }

  class BluetoothConnection {
    const efficient: bool
    const sizes: Sizes
    var address: Uint64
    var sendService: int
    var services: seq<DiscoveredService>
    var subscribed: bool
    var connected: bool
    var outbox: seq<Message>

    ghost predicate Valid()
      reads this
    {
      Sendable(services) && -0x8000 <= sendService < 0x8000
    }

    ghost function View(): Stream
      requires Valid()
      reads this
    {
      Stream(sendService, Wire(services, efficient), subscribed, connected, outbox)
    }

    constructor (efficient: bool, sizes: Sizes)
      ensures Valid() && View() == Stream(INIT_SENDING_SERVICES, [], false, false, []) && address == 0
    {
      this.efficient, this.sizes := efficient, sizes;
      address, sendService, services, subscribed, connected, outbox := 0, INIT_SENDING_SERVICES, [], false, false, [];
    }

    /** The streaming part of loop(), after the base class has drained its events. */
    method Loop()
      requires Valid()
      modifies this`sendService, this`services, this`outbox
      ensures Valid()
      ensures View() == if address == 0 then old(View()) else Tick(sizes, old(View()))
    {
      if address == 0 {
        return;
      }
      if sendService >= 0 && sendService <= Int16(|services|) {
        SendServiceForDiscovery();
      }
    }

    method SendServiceForDiscovery()
      requires Valid() && 0 <= sendService <= Int16(|services|)
      modifies this`sendService, this`services, this`outbox
      ensures Valid() && View() == Tick(sizes, old(View()))
    {
      if sendService >= |services| {
        sendService := DONE_SENDING_SERVICES;
        if subscribed {
          outbox := outbox + [ServicesDone];
        }
        services := [];
        return;
      }
      if !subscribed {
        sendService := DONE_SENDING_SERVICES;
        return;
      }
      var resp, next := FillBatch(services, sendService, efficient, sizes);
      sendService := next;
      outbox := outbox + [ServicesMessage(resp)];
    }

    /** BluetoothGATTGetServicesRequest; a connection that is not found counts as not connected. */
    method GattSendServices()
      requires Valid()
      modifies this`sendService, this`outbox
      ensures Valid() && View() == Request(old(View()))
    {
      if !connected {
        if subscribed {
          outbox := outbox + [NotConnectedError];
        }
        return;
      }
      if |services| == 0 {
        if subscribed {
          outbox := outbox + [ServicesDone];
        }
        return;
      }
      if sendService == INIT_SENDING_SERVICES {
        sendService := 0;
      }
    }

    /** DISCONNECTED: the base class releases the tree, then reset_connection_ frees the slot. */
    method OnDisconnected()
      requires Valid() && address != 0
      modifies this`sendService, this`services, this`address, this`connected
      ensures Valid() && View() == Disconnect(old(View())) && address == 0
    {
      services, connected := [], false;
      address := 0;
      sendService := INIT_SENDING_SERVICES;
    }
  }
}
