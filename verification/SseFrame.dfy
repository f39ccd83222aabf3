/**
  * Server-sent-event framing (components/web_server_base/web_server_host.cpp, build_sse_frame_)
  * against the event-stream interpretation of section 9.2.6 of the HTML Living Standard.
  */
module SseFrame {
  import opened Common
  import opened Strings

  /** What the server passes as `const char *`: no embedded NUL. */
  type CString = s: string | '\0' !in s

  /** One call of the frame builder; id 0 and reconnect 0 mean "absent", and so does an empty
      or null event name. */
  datatype Push = Push(message: CString, event: CString, id: Uint32, reconnect: Uint32)

  // ----- the receiving side -----

  datatype Received = Received(kind: string, data: string, lastEventId: string, reconnectionTime: Option<nat>)

  datatype Interpreter = Interpreter(data: string, kind: string, id: string, reconnectionTime: Option<nat>, events: seq<Received>)

  const FRESH := Interpreter("", "", "", None, [])

  /** Complete lines, ended by CRLF, LF or CR; `cur` is the line read so far. */
  function Lines(s: string, cur: string): seq<string>
    decreases |s|
  {
    if s == "" then []
    else if s[0] == '\n' then [cur] + Lines(s[1..], "")
    else if s[0] == '\r' then [cur] + Lines(if |s| > 1 && s[1] == '\n' then s[2..] else s[1..], "")
    else Lines(s[1..], cur + [s[0]])
  }

  function ProcessField(p: Interpreter, field: string, value: string): Interpreter {
    if field == "event" then p.(kind := value)
    else if field == "data" then p.(data := p.data + value + "\n")
    else if field == "id" then if '\0' in value then p else p.(id := value)
    else if field == "retry" then if Digits(value) then p.(reconnectionTime := Some(DecimalValue(value))) else p
    else p
  }

  function Dispatch(p: Interpreter): Interpreter {
    if p.data == "" then p.(kind := "")
    else
      var data := if p.data[|p.data| - 1] == '\n' then p.data[..|p.data| - 1] else p.data;
      var kind := if p.kind == "" then "message" else p.kind;
      p.(data := "", kind := "", events := p.events + [Received(kind, data, p.id, p.reconnectionTime)])
  }

  function ProcessLine(p: Interpreter, line: string): Interpreter {
    if line == "" then Dispatch(p)
    else
      var k := Find(line, ':', 0);
      if k == 0 then p                                     // a comment
      else if k == |line| then ProcessField(p, line, "")
      else
        var v := line[k + 1..];
        ProcessField(p, line[..k], if v != "" && v[0] == ' ' then v[1..] else v)
  }

  function ProcessLines(p: Interpreter, lines: seq<string>): Interpreter
    decreases |lines|
  {
    if lines == [] then p else ProcessLines(ProcessLine(p, lines[0]), lines[1..])
  }

  const BOM := '\U{FEFF}'

  /** The events a client dispatches for a whole stream. */
  function Interpret(stream: string): seq<Received> {
    var s := if stream != "" && stream[0] == BOM then stream[1..] else stream;
    ProcessLines(FRESH, Lines(s, "")).events
  }

  // ----- the frames -----

  /** `field: value` */
  function Labelled(field: string, value: string): string {
    field + ": " + value
  }

  function Ended(line: string): string {
    line + "\n"
  }

  function DataLines(chunks: seq<string>): seq<string> {
    if chunks == [] then [] else [Labelled("data", chunks[0])] + DataLines(chunks[1..])
  }

  function EventLines(event: string): seq<string> {
    if event != "" then [Labelled("event", event)] else []
  }

  function IdLines(id: Uint32): seq<string> {
    if id != 0 then [Labelled("id", Decimal(id))] else []
  }

  function RetryLines(reconnect: Uint32): seq<string> {
    if reconnect != 0 then [Labelled("retry", Decimal(reconnect))] else []
  }

  function HeadLines(e: Push): seq<string> {
    EventLines(e.event) + IdLines(e.id) + RetryLines(e.reconnect)
  }

  function Unlines(lines: seq<string>): string {
    Collected(Ended, lines, |lines|)
  }

  function FrameLines(e: Push): seq<string> {
    HeadLines(e) + DataLines(Pieces(e.message, '\n')) + [""]
  }

  function Frame(e: Push): string {
    Unlines(FrameLines(e))
  }

  function DataText(chunk: string): string {
    Ended(Labelled("data", chunk))
  }

  function Body(m: string): string {
    Unlines(DataLines(Pieces(m, '\n')))
  }

  /** Each line of the message becomes a data line. */
  method AppendData(frame: string, message: string) returns (out: string)
    ensures out == frame + Body(message)
  {
    out := frame;
    var p := 0;
    assert message[0..] == message;
    while true
      invariant p <= |message|
      invariant out + Body(message[p..]) == frame + Body(message)
      decreases |message| - p
    {
      var rest := message[p..];
      var nl := Find(rest, '\n', 0);
      if nl == |rest| {
        OneDataLine(rest);
        out := out + DataText(rest);
        break;
      }
      MoreDataLines(rest, nl);
      ConcatAssociates(out, DataText(rest[..nl]), Body(rest[nl + 1..]));
      out := out + DataText(rest[..nl]);
      assert rest[nl + 1..] == message[p + nl + 1..];
      p := p + nl + 1;
    }
  }

  method BuildSseFrame(message: CString, event: Option<CString>, id: Uint32, reconnect: Uint32) returns (frame: string)
    ensures frame == Frame(Push(message, if event.Some? then event.value else "", id, reconnect))
  {
    ghost var e := Push(message, if event.Some? then event.value else "", id, reconnect);
    frame := "";
    if event.Some? && event.value != "" {
      frame := frame + Ended(Labelled("event", event.value));
    }
    OneLine(Labelled("event", e.event));
    assert frame == Unlines(EventLines(e.event));
    if id != 0 {
      frame := frame + Ended(Labelled("id", Decimal(id)));
    }
    OneLine(Labelled("id", Decimal(id)));
    CollectedConcat(Ended, EventLines(e.event), IdLines(id));
    assert frame == Unlines(EventLines(e.event) + IdLines(id));
    if reconnect != 0 {
      frame := frame + Ended(Labelled("retry", Decimal(reconnect)));
    }
    OneLine(Labelled("retry", Decimal(reconnect)));
    CollectedConcat(Ended, EventLines(e.event) + IdLines(id), RetryLines(reconnect));
    assert frame == Unlines(HeadLines(e));
    frame := AppendData(frame, message);
    frame := frame + "\n";
    FrameText(e);
  }

  lemma {:induction false} OneLine(l: string)
    ensures Unlines([l]) == Ended(l) && Unlines([]) == ""
  {
    assert Collected(Ended, [l], 1) == Collected(Ended, [l], 0) + Ended(l);
  }

  lemma {:induction false} FrameText(e: Push)
    ensures Frame(e) == (Unlines(HeadLines(e)) + Body(e.message)) + "\n"
  {
    CollectedConcat(Ended, HeadLines(e), DataLines(Pieces(e.message, '\n')));
    CollectedConcat(Ended, HeadLines(e) + DataLines(Pieces(e.message, '\n')), [""]);
    OneLine("");
    assert Ended("") == "\n";
  }

  lemma {:induction false} OneDataLine(rest: string)
    requires Find(rest, '\n', 0) == |rest|
    ensures Body(rest) == DataText(rest)
  {
    assert [rest][1..] == [];
    assert DataLines([rest]) == [Labelled("data", rest)];
    OneLine(Labelled("data", rest));
  }

  lemma {:induction false} MoreDataLines(rest: string, nl: nat)
    requires nl == Find(rest, '\n', 0) < |rest|
    ensures Body(rest) == DataText(rest[..nl]) + Body(rest[nl + 1..])
  {
    var c := [rest[..nl]] + Pieces(rest[nl + 1..], '\n');
    assert c[1..] == Pieces(rest[nl + 1..], '\n');
    assert DataLines(c) == [Labelled("data", rest[..nl])] + DataLines(c[1..]);
    CollectedConcat(Ended, [Labelled("data", rest[..nl])], DataLines(c[1..]));
    OneLine(Labelled("data", rest[..nl]));
  }

  // ----- round trip -----

  predicate CleanLine(l: string) {
    '\n' !in l && '\r' !in l
  }

  lemma {:induction false} LinesOfLine(l: string, rest: string, cur: string)
    requires CleanLine(l)
    ensures Lines(Ended(l) + rest, cur) == [cur + l] + Lines(rest, "")
    decreases |l|
  {
    var s := Ended(l) + rest;
    if l == "" {
      assert s[1..] == rest && cur + l == cur;
    } else {
      assert l[0] in l && s[0] == l[0];
      assert s[1..] == Ended(l[1..]) + rest;
      assert CleanLine(l[1..]);
      LinesOfLine(l[1..], rest, cur + [l[0]]);
      assert cur + [l[0]] + l[1..] == cur + l;
    }
  }

  lemma {:induction false} LinesOfUnlines(ls: seq<string>, n: nat, rest: string)
    requires n <= |ls| && forall i :: 0 <= i < n ==> CleanLine(ls[i])
    ensures Lines(Collected(Ended, ls, n) + rest, "") == ls[..n] + Lines(rest, "")
  {
    if n == 0 {
      assert Collected(Ended, ls, 0) + rest == rest;
    } else {
      ConcatAssociates(Collected(Ended, ls, n - 1), Ended(ls[n - 1]), rest);
      LinesOfUnlines(ls, n - 1, Ended(ls[n - 1]) + rest);
      LinesOfLine(ls[n - 1], rest, "");
      assert "" + ls[n - 1] == ls[n - 1];
      assert ls[..n] == ls[..n - 1] + [ls[n - 1]];
    }
  }

  lemma {:induction false} ProcessConcat(p: Interpreter, a: seq<string>, b: seq<string>)
    ensures ProcessLines(p, a + b) == ProcessLines(ProcessLines(p, a), b)
    decreases |a|
  {
    if a == [] {
      assert a + b == b;
    } else {
      assert (a + b)[1..] == a[1..] + b;
      ProcessConcat(ProcessLine(p, a[0]), a[1..], b);
    }
  }

  /** A `field: value` line sets the field to the value. */
  lemma {:induction false} FieldLine(p: Interpreter, field: string, value: string)
    requires field != "" && ':' !in field
    ensures ProcessLine(p, Labelled(field, value)) == ProcessField(p, field, value)
  {
    var line := Labelled(field, value);
    var k := Find(line, ':', 0);
    assert line[|field|] == ':';
    assert k == |field| by {
      assert forall j :: 0 <= j < |field| ==> line[j] == field[j];
    }
    assert line[..k] == field;
    assert line[k + 1..] == " " + value;
    assert line[k + 1..][1..] == value;
  }

  function Joined(chunks: seq<string>): string {
    if chunks == [] then "" else Ended(chunks[0]) + Joined(chunks[1..])
  }

  /** The chunks joined again are the message with a final line feed. */
  lemma {:induction false} ChunksJoin(m: string)
    ensures Joined(Pieces(m, '\n')) == Ended(m)
    ensures forall c <- Pieces(m, '\n') :: '\n' !in c && forall x <- c :: x in m
    decreases |m|
  {
    var k := Find(m, '\n', 0);
    if k == |m| {
      assert [m][1..] == [];
      assert Ended(m) + "" == Ended(m);
    } else {
      ChunksJoin(m[k + 1..]);
      var c := [m[..k]] + Pieces(m[k + 1..], '\n');
      assert c[1..] == Pieces(m[k + 1..], '\n');
      assert Ended(m) == Ended(m[..k]) + Ended(m[k + 1..]);
      assert '\n' !in m[..k];
    }
  }

  lemma {:induction false} ProcessData(p: Interpreter, chunks: seq<string>)
    ensures ProcessLines(p, DataLines(chunks)) == p.(data := p.data + Joined(chunks))
    decreases |chunks|
  {
    if chunks == [] {
      assert p.data + "" == p.data;
    } else {
      FieldLine(p, "data", chunks[0]);
      var q := p.(data := p.data + Ended(chunks[0]));
      assert p.data + chunks[0] + "\n" == q.data;
      ProcessData(q, chunks[1..]);
      ConcatAssociates(p.data, Ended(chunks[0]), Joined(chunks[1..]));
      assert DataLines(chunks)[1..] == DataLines(chunks[1..]);
    }
  }

  /** The interpreter's state with one more event delivered as the server meant it. An absent
      id or reconnect value keeps the previous one, an absent name is "message". */
  function Deliver(p: Interpreter, e: Push): Interpreter {
    var id := if e.id != 0 then Decimal(e.id) else p.id;
    var time := if e.reconnect != 0 then Some(e.reconnect) else p.reconnectionTime;
    var kind := if e.event != "" then e.event else "message";
    Interpreter("", "", id, time, p.events + [Received(kind, e.message, id, time)])
  }

  function DeliverUpTo(p: Interpreter, pushes: seq<Push>, n: nat): Interpreter
    requires n <= |pushes|
  {
    if n == 0 then p else Deliver(DeliverUpTo(p, pushes, n - 1), pushes[n - 1])
  }

  /** The events the server meant to send. */
  function Intended(pushes: seq<Push>): seq<Received> {
    DeliverUpTo(FRESH, pushes, |pushes|).events
  }

  lemma {:induction false} OneProcessed(p: Interpreter, field: string, value: string)
    requires field != "" && ':' !in field
    ensures ProcessLines(p, [Labelled(field, value)]) == ProcessField(p, field, value)
  {
    FieldLine(p, field, value);
    assert [Labelled(field, value)][1..] == [];
  }

  lemma {:induction false} HeadProcessed(p: Interpreter, e: Push)
    requires p.data == "" && p.kind == ""
    ensures ProcessLines(p, HeadLines(e)) ==
            p.(kind := e.event, id := if e.id != 0 then Decimal(e.id) else p.id,
               reconnectionTime := if e.reconnect != 0 then Some(e.reconnect) else p.reconnectionTime)
  {
    var p1 := p.(kind := e.event);
    var p2 := p1.(id := if e.id != 0 then Decimal(e.id) else p.id);
    OneProcessed(p, "event", e.event);
    OneProcessed(p1, "id", Decimal(e.id));
    DecimalRoundTrip(e.id);
    OneProcessed(p2, "retry", Decimal(e.reconnect));
    DecimalRoundTrip(e.reconnect);
    ProcessConcat(p, EventLines(e.event), IdLines(e.id));
    ProcessConcat(p, EventLines(e.event) + IdLines(e.id), RetryLines(e.reconnect));
  }

  lemma {:induction false} FrameProcessed(p: Interpreter, e: Push)
    requires p.data == "" && p.kind == ""
    ensures ProcessLines(p, FrameLines(e)) == Deliver(p, e)
  {
    var q := ProcessLines(p, HeadLines(e));
    var chunks := Pieces(e.message, '\n');
    HeadProcessed(p, e);
    ProcessConcat(p, HeadLines(e), DataLines(chunks));
    ProcessData(q, chunks);
    ChunksJoin(e.message);
    var r := q.(data := Ended(e.message));
    assert q.data + Joined(chunks) == r.data;
    ProcessConcat(p, HeadLines(e) + DataLines(chunks), [""]);
    assert [""][1..] == [];
    assert ProcessLines(r, [""]) == Dispatch(r);
    assert r.data[..|r.data| - 1] == e.message;
  }

  function ConcatUpTo(texts: seq<string>, n: nat): string
    requires n <= |texts|
  {
    if n == 0 then "" else ConcatUpTo(texts, n - 1) + texts[n - 1]
  }

  function Frames(pushes: seq<Push>): (f: seq<string>)
    ensures |f| == |pushes|
  {
    seq(|pushes|, i requires 0 <= i < |pushes| => Frame(pushes[i]))
  }

  lemma {:induction false} FramesFirst(p: Push, pushes: seq<Push>)
    ensures Frames([p] + pushes) == [Frame(p)] + Frames(pushes)
  {
    var all, rest := Frames([p] + pushes), Frames(pushes);
    FrameAt([p] + pushes, 0);
    forall i | 0 < i < |all| ensures all[i] == ([Frame(p)] + rest)[i] {
      FrameAt([p] + pushes, i);
      FrameAt(pushes, i - 1);
    }
  }

  lemma {:induction false} FrameAt(pushes: seq<Push>, i: nat)
    requires i < |pushes|
    ensures Frames(pushes)[i] == Frame(pushes[i])
  {
  }

  /** Everything the server writes for a list of events. */
  function Stream(pushes: seq<Push>): string {
    ConcatUpTo(Frames(pushes), |pushes|)
  }

  predicate Clean(e: Push) {
    '\r' !in e.message && CleanLine(e.event)
  }

  predicate CleanLines(ls: seq<string>) {
    forall l <- ls :: CleanLine(l)
  }

  lemma {:induction false} LabelledClean(field: string, value: string)
    requires CleanLine(field) && CleanLine(value)
    ensures CleanLines([Labelled(field, value)])
  {
  }

  lemma {:induction false} DataLinesClean(chunks: seq<string>)
    requires CleanLines(chunks)
    ensures CleanLines(DataLines(chunks))
  {
    if chunks != [] {
      assert chunks[0] in chunks;
      DataLinesClean(chunks[1..]);
      LabelledClean("data", chunks[0]);
    }
  }

  lemma {:induction false} HeadLinesClean(e: Push)
    requires CleanLine(e.event)
    ensures CleanLines(HeadLines(e))
  {
    LabelledClean("event", e.event);
    DecimalClean(e.id);
    LabelledClean("id", Decimal(e.id));
    DecimalClean(e.reconnect);
    LabelledClean("retry", Decimal(e.reconnect));
  }

  lemma {:induction false} DecimalClean(n: nat)
    ensures CleanLine(Decimal(n))
  {
    assert forall i :: 0 <= i < |Decimal(n)| ==> '0' <= Decimal(n)[i] <= '9';
  }

  lemma {:induction false} FrameLinesClean(e: Push)
    requires Clean(e)
    ensures CleanLines(FrameLines(e))
  {
    ChunksJoin(e.message);
    HeadLinesClean(e);
    DataLinesClean(Pieces(e.message, '\n'));
  }

  function LinesUpTo(groups: seq<seq<string>>, n: nat): seq<string>
    requires n <= |groups|
  {
    if n == 0 then [] else LinesUpTo(groups, n - 1) + groups[n - 1]
  }

  function AllFrameLines(pushes: seq<Push>): (g: seq<seq<string>>)
    ensures |g| == |pushes|
  {
    seq(|pushes|, i requires 0 <= i < |pushes| => FrameLines(pushes[i]))
  }

  /** The text is read back as these lines, whatever follows it. */
  ghost predicate ReadsAs(text: string, lines: seq<string>) {
    forall rest :: Lines(text + rest, "") == lines + Lines(rest, "")
  }

  lemma {:induction false} FrameReadsAsItsLines(e: Push)
    requires Clean(e)
    ensures ReadsAs(Frame(e), FrameLines(e))
  {
    FrameLinesClean(e);
    forall rest ensures Lines(Frame(e) + rest, "") == FrameLines(e) + Lines(rest, "") {
      LinesOfUnlines(FrameLines(e), |FrameLines(e)|, rest);
      assert FrameLines(e)[..|FrameLines(e)|] == FrameLines(e);
    }
  }

  lemma {:induction false} ConcatReadsAs(texts: seq<string>, groups: seq<seq<string>>, n: nat, rest: string)
    requires n <= |texts| == |groups| && forall i :: 0 <= i < n ==> ReadsAs(texts[i], groups[i])
    ensures Lines(ConcatUpTo(texts, n) + rest, "") == LinesUpTo(groups, n) + Lines(rest, "")
  {
    if n == 0 {
      assert ConcatUpTo(texts, 0) + rest == rest;
    } else {
      ConcatAssociates(ConcatUpTo(texts, n - 1), texts[n - 1], rest);
      ConcatReadsAs(texts, groups, n - 1, texts[n - 1] + rest);
      assert ReadsAs(texts[n - 1], groups[n - 1]);
      assert Lines(texts[n - 1] + rest, "") == groups[n - 1] + Lines(rest, "");
    }
  }

  lemma {:induction false} StreamProcessed(p: Interpreter, pushes: seq<Push>, groups: seq<seq<string>>, n: nat)
    requires p.data == "" && p.kind == ""
    requires n <= |pushes| == |groups| && forall i :: 0 <= i < n ==> groups[i] == FrameLines(pushes[i])
    ensures ProcessLines(p, LinesUpTo(groups, n)) == DeliverUpTo(p, pushes, n)
    ensures DeliverUpTo(p, pushes, n).data == "" && DeliverUpTo(p, pushes, n).kind == ""
  {
    if n > 0 {
      StreamProcessed(p, pushes, groups, n - 1);
      FrameAppended(p, LinesUpTo(groups, n - 1), DeliverUpTo(p, pushes, n - 1), pushes[n - 1]);
    }
  }

  lemma {:induction false} FrameAppended(p: Interpreter, lines: seq<string>, q: Interpreter, e: Push)
    requires ProcessLines(p, lines) == q && q.data == "" && q.kind == ""
    ensures ProcessLines(p, lines + FrameLines(e)) == Deliver(q, e)
  {
    ProcessConcat(p, lines, FrameLines(e));
    FrameProcessed(q, e);
  }

  predicate FieldStart(s: string) {
    s == "" || s[0] in {'e', 'i', 'r', 'd'}
  }

  /** No stream starts with a byte-order mark. */
  lemma {:induction false} NoBom(texts: seq<string>, n: nat)
    requires n <= |texts| && forall i :: 0 <= i < n ==> FieldStart(texts[i])
    ensures FieldStart(ConcatUpTo(texts, n))
  {
    if n > 0 {
      NoBom(texts, n - 1);
    }
  }

  lemma {:induction false} FrameStart(e: Push)
    ensures FieldStart(Frame(e))
  {
    var chunks := Pieces(e.message, '\n');
    var first := FrameLines(e)[0];
    assert DataLines(chunks) != [] && DataLines(chunks)[0] == Labelled("data", chunks[0]);
    assert first != "" && FieldStart(first);
    assert FrameLines(e) == [first] + FrameLines(e)[1..];
    CollectedConcat(Ended, [first], FrameLines(e)[1..]);
    OneLine(first);
  }

  // ----- what an interpreter can never report -----

  predicate CleanReceived(r: Received) {
    '\r' !in r.data && CleanLine(r.kind)
  }

  ghost predicate CleanInterpreter(p: Interpreter) {
    '\r' !in p.data && CleanLine(p.kind) && forall r <- p.events :: CleanReceived(r)
  }

  lemma {:induction false} LinesAreClean(s: string, cur: string)
    requires CleanLine(cur)
    ensures forall l <- Lines(s, cur) :: CleanLine(l)
    decreases |s|
  {
    if s != "" {
      if s[0] == '\n' {
        LinesAreClean(s[1..], "");
      } else if s[0] == '\r' {
        LinesAreClean(if |s| > 1 && s[1] == '\n' then s[2..] else s[1..], "");
      } else {
        LinesAreClean(s[1..], cur + [s[0]]);
      }
    }
  }

  lemma {:induction false} LineKeepsClean(p: Interpreter, line: string)
    requires CleanInterpreter(p) && CleanLine(line)
    ensures CleanInterpreter(ProcessLine(p, line))
  {
  }

  lemma {:induction false} LinesKeepClean(p: Interpreter, lines: seq<string>)
    requires CleanInterpreter(p) && forall l <- lines :: CleanLine(l)
    ensures CleanInterpreter(ProcessLines(p, lines))
    decreases |lines|
  {
    if lines != [] {
      assert lines[0] in lines;
      LineKeepsClean(p, lines[0]);
      LinesKeepClean(ProcessLine(p, lines[0]), lines[1..]);
    }
  }

  lemma {:induction false} IntendedEvents(p: Interpreter, pushes: seq<Push>, n: nat, i: nat)
    requires n <= |pushes| && p.events == []
    ensures |DeliverUpTo(p, pushes, n).events| == n
    ensures i < n ==>
              && DeliverUpTo(p, pushes, n).events[i].data == pushes[i].message
              && DeliverUpTo(p, pushes, n).events[i].kind == (if pushes[i].event != "" then pushes[i].event else "message")
  {
    if n > 0 {
      IntendedEvents(p, pushes, n - 1, i);
    }
  }

  lemma {:induction false} CleanStream(pushes: seq<Push>)
    requires forall i :: 0 <= i < |pushes| ==> Clean(pushes[i])
    ensures ProcessLines(FRESH, Lines(Stream(pushes), "")).events == Intended(pushes)
  {
    CleanStreamLines(pushes);
    CleanStreamDelivers(pushes);
  }

  lemma {:induction false} CleanStreamLines(pushes: seq<Push>)
    requires forall i :: 0 <= i < |pushes| ==> Clean(pushes[i])
    ensures Lines(Stream(pushes), "") == LinesUpTo(AllFrameLines(pushes), |pushes|)
  {
    var texts, groups := Frames(pushes), AllFrameLines(pushes);
    forall i | 0 <= i < |pushes| ensures ReadsAs(texts[i], groups[i]) {
      FrameReadsAsItsLines(pushes[i]);
    }
    ConcatReadsAs(texts, groups, |pushes|, "");
    assert Stream(pushes) + "" == Stream(pushes);
    assert LinesUpTo(groups, |pushes|) + Lines("", "") == LinesUpTo(groups, |pushes|);
  }

  lemma {:induction false} CleanStreamDelivers(pushes: seq<Push>)
    ensures ProcessLines(FRESH, LinesUpTo(AllFrameLines(pushes), |pushes|)) == DeliverUpTo(FRESH, pushes, |pushes|)
  {
    StreamProcessed(FRESH, pushes, AllFrameLines(pushes), |pushes|);
  }

  lemma {:induction false} UncleanStream(pushes: seq<Push>, i: nat)
    requires i < |pushes| && !Clean(pushes[i])
    ensures ProcessLines(FRESH, Lines(Stream(pushes), "")).events != Intended(pushes)
  {
    LinesAreClean(Stream(pushes), "");
    LinesKeepClean(FRESH, Lines(Stream(pushes), ""));
    IntendedEvents(FRESH, pushes, |pushes|, i);
    assert !CleanReceived(Intended(pushes)[i]);
    assert Intended(pushes)[i] in Intended(pushes);
  }

  /** A client interpreting everything the server wrote sees exactly the intended events, in
      order, if and only if no message holds a carriage return and no event name a carriage
      return or line feed. */
  lemma {:induction false} StreamRoundTrip(pushes: seq<Push>)
    ensures Interpret(Stream(pushes)) == Intended(pushes) <==> forall i :: 0 <= i < |pushes| ==> Clean(pushes[i])
  {
    forall i | 0 <= i < |pushes| ensures FieldStart(Frames(pushes)[i]) {
      FrameStart(pushes[i]);
    }
    NoBom(Frames(pushes), |pushes|);
    if forall i :: 0 <= i < |pushes| ==> Clean(pushes[i]) {
      CleanStream(pushes);
    } else {
      var i :| 0 <= i < |pushes| && !Clean(pushes[i]);
      UncleanStream(pushes, i);
    }
  }
}
