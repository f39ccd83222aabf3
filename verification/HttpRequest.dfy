/**
  * Reading an HTTP request from a socket (components/web_server_base/web_server_host.cpp,
  * parse_request_): recv delivers the stream in chunks of at most 1024 bytes, and the request must
  * not depend on where the chunks end (HttpChunking).
  */
module HttpRequest {
  import opened Common
  import opened Query
  import opened Strings

  const CHUNK_SIZE := 1024
  const LIMIT := 32768
  const CRLF := "\r\n"
  const END := "\r\n\r\n"

  // ----- the head -----

  datatype HttpMethod = GET | POST | PUT | DELETE | OPTIONS | HEAD | PATCH | ANY

  datatype Head = Head(verb: HttpMethod, url: string, query: string, headers: map<string, string>)

  datatype Request = Request(head: Head, body: string)

  function ParseMethod(m: string): HttpMethod {
    if m == "GET" then GET
    else if m == "POST" then POST
    else if m == "PUT" then PUT
    else if m == "DELETE" then DELETE
    else if m == "OPTIONS" then OPTIONS
    else if m == "HEAD" then HEAD
    else if m == "PATCH" then PATCH
    else ANY
  }

  function Lowercase(s: string): (r: string)
    ensures |r| == |s|
  {
    if s == "" then ""
    else [if 'A' <= s[0] <= 'Z' then (s[0] as int + 32) as char else s[0]] + Lowercase(s[1..])
  }

  function TrimLeft(s: string): string {
    if s != "" && (s[0] == ' ' || s[0] == '\t') then TrimLeft(s[1..]) else s
  }

  /** One field line; without a colon it is skipped, and a repeated name keeps the last value. */
  function AddHeader(headers: map<string, string>, line: string): map<string, string> {
    var colon := Find(line, ':', 0);
    if colon == |line| then headers else headers[Lowercase(line[..colon]) := TrimLeft(line[colon + 1..])]
  }

  function AddHeaders(headers: map<string, string>, lines: seq<string>): map<string, string>
    decreases |lines|
  {
    if lines == [] then headers else AddHeaders(AddHeader(headers, lines[0]), lines[1..])
  }

  /** The lines from a position on, up to the first empty one. */
  function FieldLines(block: string, pos: nat): seq<string>
    decreases |block| + 2 - pos
  {
    if pos >= |block| then []
    else
      var e := FindText(block, CRLF, pos);
      if e == pos then [] else [block[pos..e]] + FieldLines(block, e + 2)
  }

  /** The parts of the request line as they stand in it. */
  datatype RequestLine = RequestLine(verb: string, path: string, query: string)

  function ParseLine(line: string): Option<RequestLine> {
    var sp1 := Find(line, ' ', 0);
    if sp1 == |line| then None
    else
      var sp2 := Find(line, ' ', sp1 + 1);
      if sp2 == |line| then None
      else
        var target := line[sp1 + 1..sp2];
        var q := Find(target, '?', 0);
        Some(RequestLine(line[..sp1], target[..q], if q < |target| then target[q + 1..] else ""))
  }

  function ParseHead(block: string): Option<Head> {
    var eol := FindText(block, CRLF, 0);
    if eol == |block| || ParseLine(block[..eol]).None? then None
    else
      var l := ParseLine(block[..eol]).value;
      Some(Head(ParseMethod(l.verb), Decoded(l.path), l.query, AddHeaders(map[], FieldLines(block, eol + 2))))
  }

  // ----- Content-Length -----

  function DigitsEnd(s: string, i: nat): (k: nat)
    requires i <= |s|
    ensures i <= k <= |s|
    ensures Digits(s[i..k])
    decreases |s| - i
  {
    if i == |s| || !('0' <= s[i] <= '9') then i
    else
      var k := DigitsEnd(s, i + 1);
      assert forall j :: 0 < j < k - i ==> s[i..k][j] == s[i + 1..k][j - 1];
      k
  }

  predicate Whitespace(c: char) {
    c == ' ' || '\t' <= c <= '\r'
  }

  function SkipWhitespace(s: string): string {
    if s != "" && Whitespace(s[0]) then SkipWhitespace(s[1..]) else s
  }

  /** strtoul in base 10 with an unsigned long of 64 bits; None when nothing converts or the value overflows. */
  function Strtoul(s: string): Option<Uint64> {
    var t := SkipWhitespace(s);
    var negative := t != "" && t[0] == '-';
    var i := if negative || (t != "" && t[0] == '+') then 1 else 0;
    var k := DigitsEnd(t, i);
    if k == i then None
    else
      var v := DecimalValue(t[i..k]);
      if v >= 0x1_0000_0000_0000_0000 then None
      else if negative && v > 0 then Some(0x1_0000_0000_0000_0000 - v)
      else Some(v)
  }

  /** A numeral as strtoul takes it: whitespace, a sign, as many digits as there are, the rest. */
  ghost predicate Numeral(s: string, space: string, sign: string, digits: string, rest: string) {
    && s == space + (sign + (digits + rest))
    && (forall c <- space :: Whitespace(c)) && sign in {"", "+", "-"}
    && digits != "" && Digits(digits) && (rest == "" || !('0' <= rest[0] <= '9'))
  }

  /** The value of a numeral in 64 unsigned bits; a minus sign negates it there. */
  function NumeralValue(sign: string, digits: string): Option<Uint64>
    requires Digits(digits)
  {
    var v := DecimalValue(digits);
    if v >= 0x1_0000_0000_0000_0000 then None
    else if sign == "-" then Some((0x1_0000_0000_0000_0000 - v) % 0x1_0000_0000_0000_0000)
    else Some(v)
  }

  lemma {:induction false} SpaceSkipped(space: string, t: string)
    requires (forall c <- space :: Whitespace(c)) && (t == "" || !Whitespace(t[0]))
    ensures SkipWhitespace(space + t) == t
    decreases |space|
  {
    if space == "" {
      assert space + t == t;
    } else {
      assert space[0] in space && (space + t)[1..] == space[1..] + t;
      SpaceSkipped(space[1..], t);
    }
  }

  lemma {:induction false} DigitsEndAt(s: string, i: nat, k: nat)
    requires i <= k <= |s| && (forall j :: i <= j < k ==> '0' <= s[j] <= '9') && (k < |s| ==> !('0' <= s[k] <= '9'))
    ensures DigitsEnd(s, i) == k
    decreases k - i
  {
    if i < k {
      DigitsEndAt(s, i + 1, k);
    }
  }

  lemma {:induction false} SignedDigits(sign: string, digits: string, rest: string)
    requires sign in {"", "+", "-"} && digits != "" && Digits(digits) && (rest == "" || !('0' <= rest[0] <= '9'))
    ensures var t := sign + (digits + rest);
            && DigitsEnd(t, |sign|) == |sign| + |digits| && t[|sign|..|sign| + |digits|] == digits && !Whitespace(t[0])
            && (t[0] == '-' <==> sign == "-") && (t[0] == '+' <==> sign == "+")
  {
    var t := sign + (digits + rest);
    DigitsEndAt(t, |sign|, |sign| + |digits|);
  }

  lemma {:induction false} StrtoulFrom(s: string, t: string, sign: string, digits: string)
    requires t != "" && SkipWhitespace(s) == t && digits != "" && sign in {"", "+", "-"}
    requires (t[0] == '-' <==> sign == "-") && (t[0] == '+' <==> sign == "+")
    requires var k := DigitsEnd(t, |sign|); k == |sign| + |digits| && t[|sign|..k] == digits
    ensures Digits(digits) && Strtoul(s) == NumeralValue(sign, digits)
  {
  }

  lemma {:induction false} NumeralRead(s: string, space: string, sign: string, digits: string, rest: string)
    requires Numeral(s, space, sign, digits, rest)
    ensures Strtoul(s) == NumeralValue(sign, digits)
  {
    var t := sign + (digits + rest);
    SignedDigits(sign, digits, rest);
    SpaceSkipped(space, t);
    StrtoulFrom(s, t, sign, digits);
  }

  lemma {:induction false} SpaceCut(s: string)
    ensures |SkipWhitespace(s)| <= |s|
    ensures var n := |s| - |SkipWhitespace(s)|; s == s[..n] + SkipWhitespace(s) && forall c <- s[..n] :: Whitespace(c)
  {
    if s != "" && Whitespace(s[0]) {
      SpaceCut(s[1..]);
      var n := |s[1..]| - |SkipWhitespace(s[1..])|;
      assert s == [s[0]] + s[1..] && s[..n + 1] == [s[0]] + s[1..][..n];
    }
  }

  lemma {:induction false} DigitsEndStops(s: string, i: nat)
    requires i <= |s|
    ensures var k := DigitsEnd(s, i); k < |s| ==> !('0' <= s[k] <= '9')
    decreases |s| - i
  {
    if i < |s| && '0' <= s[i] <= '9' {
      DigitsEndStops(s, i + 1);
    }
  }

  lemma {:induction false} DigitsCut(t: string, i: nat)
    requires i <= |t|
    ensures var k := DigitsEnd(t, i);
            t == t[..i] + (t[i..k] + t[k..]) && (t[k..] == "" || !('0' <= t[k..][0] <= '9'))
  {
    DigitsEndStops(t, i);
  }

  lemma {:induction false} NumeralFound(s: string) returns (space: string, sign: string, digits: string, rest: string)
    requires Strtoul(s).Some?
    ensures Numeral(s, space, sign, digits, rest) && Strtoul(s) == NumeralValue(sign, digits)
  {
    var t := SkipWhitespace(s);
    SpaceCut(s);
    var i := if t != "" && (t[0] == '-' || t[0] == '+') then 1 else 0;
    DigitsCut(t, i);
    var k := DigitsEnd(t, i);
    space, sign, digits, rest := s[..|s| - |t|], t[..i], t[i..k], t[k..];
    assert if i == 0 then sign == "" else sign == [t[0]];
    NumeralRead(s, space, sign, digits, rest);
  }

  ghost predicate BeginsWithNumeral(s: string, v: Uint64) {
    exists space, sign, digits, rest :: Numeral(s, space, sign, digits, rest) && NumeralValue(sign, digits) == Some(v)
  }

  /** A value is read exactly when the text begins with a numeral of at most 64 bits, and it is that
      numeral's. */
  lemma {:induction false} StrtoulIff(s: string, v: Uint64)
    ensures Strtoul(s) == Some(v) <==> BeginsWithNumeral(s, v)
  {
    if Strtoul(s).Some? {
      var space, sign, digits, rest := NumeralFound(s);
    }
    if BeginsWithNumeral(s, v) {
      var space, sign, digits, rest :| Numeral(s, space, sign, digits, rest) && NumeralValue(sign, digits) == Some(v);
      NumeralRead(s, space, sign, digits, rest);
    }
  }

  /** The number of body bytes to wait for. */
  function Wanted(headers: map<string, string>): Uint64 {
    if "content-length" in headers && Strtoul(headers["content-length"]).Some?
    then Strtoul(headers["content-length"]).value else 0
  }

  /** A parsed header block with the body length it declares. */
  datatype Framed = Framed(head: Head, want: Uint64)

  /** What reading needs of the header block; the reading itself is the same for every such parser. */
  type HeadParser = string -> Option<Framed>

  function Frame(block: string): Option<Framed> {
    var head := ParseHead(block);
    if head.None? then None else Some(Framed(head.value, Wanted(head.value.headers)))
  }

  // ----- reading from the socket -----

  datatype ReadHeadResult = ReadHeadResult(buf: Option<string>, rest: seq<string>)
  datatype ReadBodyResult = ReadBodyResult(body: string, rest: seq<string>)
  datatype Outcome = Outcome(request: Option<Request>, rest: seq<string>)

  function HeadEnd(buf: string): (k: nat)
    ensures k <= |buf| && (k < |buf| ==> k + 4 <= |buf|)
  {
    FindText(buf, END, 0)
  }

  predicate Complete(buf: string) {
    HeadEnd(buf) < |buf|
  }

  /** Chunks are read until the blank line has arrived; too much data or the end of the stream fails. */
  function ReadHead(buf: string, chunks: seq<string>): (r: ReadHeadResult)
    ensures r.buf.Some? ==> Complete(r.buf.value)
    decreases |chunks|
  {
    if chunks == [] then ReadHeadResult(None, [])
    else
      var more := buf + chunks[0];
      if |more| > LIMIT then ReadHeadResult(None, chunks[1..])
      else if Complete(more) then ReadHeadResult(Some(more), chunks[1..])
      else ReadHead(more, chunks[1..])
  }

  function ReadBody(body: string, want: nat, chunks: seq<string>): ReadBodyResult
    decreases |chunks|
  {
    if |body| >= want || chunks == [] then ReadBodyResult(body, chunks)
    else ReadBody(body + chunks[0], want, chunks[1..])
  }

  function Finish(parse: HeadParser, buf: string, rest: seq<string>): Outcome
    requires Complete(buf)
  {
    var h := HeadEnd(buf);
    var framed := parse(buf[..h]);
    if framed.None? then Outcome(None, rest)
    else
      var r := ReadBody(buf[h + 4..], framed.value.want, rest);
      Outcome(Some(Request(framed.value.head, r.body)), r.rest)
  }

  function Parsed(parse: HeadParser, chunks: seq<string>): Outcome {
    var r := ReadHead("", chunks);
    if r.buf.None? then Outcome(None, r.rest) else Finish(parse, r.buf.value, r.rest)
  }

  class Socket {
    /** The chunks recv will deliver before it reports the end of the stream or an error. */
    var pending: seq<string>

    constructor (pending: seq<string>)
      ensures this.pending == pending
    {
      this.pending := pending;
    }

    method Recv() returns (chunk: Option<string>)
      modifies this
      ensures old(pending) == [] ==> chunk == None && pending == []
      ensures old(pending) != [] ==> chunk == Some(old(pending)[0]) && pending == old(pending)[1..]
    {
      if pending == [] {
        return None;
      }
      chunk, pending := Some(pending[0]), pending[1..];
    }

    method ReceiveHead() returns (buf: Option<string>)
      modifies this
      ensures ReadHeadResult(buf, pending) == ReadHead("", old(pending))
    {
      var all := "";
      while true
        invariant ReadHead(all, pending) == ReadHead("", old(pending))
        decreases |pending|
      {
        var chunk := Recv();
        if chunk.None? {
          return None;
        }
        all := all + chunk.value;
        var headerEndPos := FindText(all, END, 0);
        if |all| > LIMIT {
          return None;
        }
        if headerEndPos < |all| {
          return Some(all);
        }
      }
    }

    method ReceiveBody(already: string, want: nat) returns (body: string)
      modifies this
      ensures ReadBodyResult(body, pending) == ReadBody(already, want, old(pending))
    {
      body := already;
      while |body| < want
        invariant ReadBody(body, want, pending) == ReadBody(already, want, old(pending))
        decreases |pending|
      {
        var chunk := Recv();
        if chunk.None? {
          break;
        }
        body := body + chunk.value;
      }
    }

    method ParseRequest() returns (request: Option<Request>)
      modifies this
      ensures Outcome(request, pending) == Parsed(Frame, old(pending))
    {
      var buf := ReceiveHead();
      if buf.None? {
        return None;
      }
      var headerEndPos := FindText(buf.value, END, 0);
      var head := ParseHeaderBlock(buf.value[..headerEndPos]);
      if head.None? {
        return None;
      }
      var body := ReceiveBody(buf.value[headerEndPos + 4..], Wanted(head.value.headers));
      request := Some(Request(head.value, body));
    }
  }

  method AddField(before: map<string, string>, line: string) returns (headers: map<string, string>)
    ensures headers == AddHeader(before, line)
  {
    var colon := Find(line, ':', 0);
    if colon == |line| {
      return before;
    }
    var value := line[colon + 1..];
    while value != "" && (value[0] == ' ' || value[0] == '\t')
      invariant TrimLeft(value) == TrimLeft(line[colon + 1..])
      decreases |value|
    {
      value := value[1..];
    }
    headers := before[Lowercase(line[..colon]) := value];
  }

  lemma {:induction false} AddOne(headers: map<string, string>, lines: seq<string>, line: string, rest: seq<string>)
    requires lines == [line] + rest
    ensures AddHeaders(headers, lines) == AddHeaders(AddHeader(headers, line), rest)
  {
    assert lines[1..] == rest;
  }

  lemma {:induction false} LinesFrom(block: string, pos: nat, e: nat)
    requires pos < |block| && e == FindText(block, CRLF, pos)
    ensures FieldLines(block, pos) == if e == pos then [] else [block[pos..e]] + FieldLines(block, e + 2)
  {
  }

  lemma {:induction false} HeadersFrom(headers: map<string, string>, block: string, pos: nat, e: nat)
    requires pos < |block| && e == FindText(block, CRLF, pos)
    ensures AddHeaders(headers, FieldLines(block, pos)) ==
            if e == pos then headers else AddHeaders(AddHeader(headers, block[pos..e]), FieldLines(block, e + 2))
  {
    LinesFrom(block, pos, e);
    if e != pos {
      AddOne(headers, FieldLines(block, pos), block[pos..e], FieldLines(block, e + 2));
    }
  }

  method ParseHeaders(block: string, start: nat) returns (headers: map<string, string>)
    ensures headers == AddHeaders(map[], FieldLines(block, start))
  {
    headers := map[];
    var pos := start;
    ghost var goal := AddHeaders(map[], FieldLines(block, start));
    while pos < |block|
      invariant AddHeaders(headers, FieldLines(block, pos)) == goal
      decreases |block| + 2 - pos
    {
      var e := FindText(block, CRLF, pos);
      var line := block[pos..e];
      HeadersFrom(headers, block, pos, e);
      if line == "" {
        return;
      }
      headers := AddField(headers, line);
      pos := e + 2;
    }
  }

  /** The method and the target end at the first two spaces, the path at the target's first '?'. */
  predicate IsLine(line: string, r: RequestLine, target: string, rest: string) {
    && line == r.verb + " " + target + " " + rest
    && ' ' !in r.verb && ' ' !in target && '?' !in r.path
    && ((target == r.path && r.query == "") || target == r.path + "?" + r.query)
  }

  ghost predicate LineOf(line: string, r: RequestLine) {
    exists target, rest :: IsLine(line, r, target, rest)
  }

  predicate TwoSpaces(line: string) {
    exists i, j :: 0 <= i < j < |line| && line[i] == ' ' && line[j] == ' '
  }

  lemma {:induction false} SpacesIn(verb: string, target: string, rest: string)
    requires ' ' !in verb && ' ' !in target
    ensures var l, sp1 := verb + " " + target + " " + rest, |verb|;
            var sp2 := sp1 + 1 + |target|;
            Find(l, ' ', 0) == sp1 && Find(l, ' ', sp1 + 1) == sp2 && sp2 < |l| && l[..sp1] == verb && l[sp1 + 1..sp2] == target
  {
    var l, sp1 := verb + " " + target + " " + rest, |verb|;
    var sp2 := sp1 + 1 + |target|;
    assert forall j :: 0 <= j < sp1 ==> l[j] == verb[j] && verb[j] in verb;
    FindIs(l, ' ', 0, sp1);
    forall j | sp1 < j < sp2 ensures l[j] != ' ' {
      assert l[j] == target[j - sp1 - 1] && target[j - sp1 - 1] in target;
    }
    FindIs(l, ' ', sp1 + 1, sp2);
  }

  lemma {:induction false} LineParts(l: string, sp1: nat, sp2: nat, verb: string, target: string, path: string, query: string)
    requires sp1 < |l| && sp1 == Find(l, ' ', 0) && sp2 == Find(l, ' ', sp1 + 1) < |l|
    requires l[..sp1] == verb && l[sp1 + 1..sp2] == target
    requires var q := Find(target, '?', 0); target[..q] == path && (if q < |target| then target[q + 1..] else "") == query
    ensures ParseLine(l) == Some(RequestLine(verb, path, query))
  {
  }

  lemma {:induction false} LineOfParts(verb: string, target: string, rest: string, path: string, query: string)
    requires ' ' !in verb && ' ' !in target
    requires var q := Find(target, '?', 0); target[..q] == path && (if q < |target| then target[q + 1..] else "") == query
    ensures ParseLine(verb + " " + target + " " + rest) == Some(RequestLine(verb, path, query))
  {
    SpacesIn(verb, target, rest);
    LineParts(verb + " " + target + " " + rest, |verb|, |verb| + 1 + |target|, verb, target, path, query);
  }

  lemma {:induction false} TargetSplit(target: string, path: string, query: string)
    requires '?' !in path
    ensures var q := Find(target, '?', 0);
            ((target == path && query == "") || target == path + "?" + query) <==>
            target[..q] == path && (if q < |target| then target[q + 1..] else "") == query
  {
    if (target == path && query == "") || target == path + "?" + query {
      assert forall j :: 0 <= j < |path| ==> target[j] == path[j] && path[j] in path;
      FindIs(target, '?', 0, |path|);
    } else {
      var q := Find(target, '?', 0);
      assert q < |target| ==> target == target[..q] + "?" + target[q + 1..];
    }
  }

  lemma {:induction false} LineSplit(line: string)
    ensures ParseLine(line).None? <==> !TwoSpaces(line)
    ensures ParseLine(line).Some? ==> LineOf(line, ParseLine(line).value)
  {
    if ParseLine(line).Some? {
      var sp1 := Find(line, ' ', 0);
      var sp2 := Find(line, ' ', sp1 + 1);
      var r, target, rest := ParseLine(line).value, line[sp1 + 1..sp2], line[sp2 + 1..];
      CutTwice(line, sp1, sp2);
      TargetSplit(target, r.path, r.query);
      assert IsLine(line, r, target, rest);
    }
  }

  lemma {:induction false} CutTwice(line: string, i: nat, j: nat)
    requires i < j < |line| && line[i] == line[j] == ' '
    ensures line == line[..i] + " " + line[i + 1..j] + " " + line[j + 1..]
  {
  }

  /** What is read from a line: refused with fewer than two spaces, and otherwise the one way to
      cut it. */
  lemma {:induction false} LineReadIff(line: string, r: RequestLine)
    ensures ParseLine(line) == Some(r) <==> LineOf(line, r)
  {
    LineSplit(line);
    if LineOf(line, r) {
      var target, rest :| IsLine(line, r, target, rest);
      TargetSplit(target, r.path, r.query);
      LineOfParts(r.verb, target, rest, r.path, r.query);
    }
  }

  ghost predicate LineMeans(line: string, r: Option<RequestLine>) {
    && (r.None? <==> !TwoSpaces(line))
    && forall l :: r == Some(l) <==> LineOf(line, l)
  }

  lemma {:induction false} LineMeaning(line: string)
    ensures LineMeans(line, ParseLine(line))
  {
    LineSplit(line);
    forall l ensures ParseLine(line) == Some(l) <==> LineOf(line, l) {
      LineReadIff(line, l);
    }
  }

  method ParseRequestLine(line: string) returns (r: Option<RequestLine>)
    ensures r == ParseLine(line) && LineMeans(line, r)
  {
    LineMeaning(line);
    var sp1 := Find(line, ' ', 0);
    if sp1 == |line| {
      return None;
    }
    var sp2 := Find(line, ' ', sp1 + 1);
    if sp2 == |line| {
      return None;
    }
    var target := line[sp1 + 1..sp2];
    var q := Find(target, '?', 0);
    r := Some(RequestLine(line[..sp1], target[..q], if q < |target| then target[q + 1..] else ""));
  }

  method ParseHeaderBlock(block: string) returns (head: Option<Head>)
    ensures head == ParseHead(block)
  {
    var eol := FindText(block, CRLF, 0);
    if eol == |block| {
      return None;
    }
    var line := ParseRequestLine(block[..eol]);
    if line.None? {
      return None;
    }
    var url := UrlDecode(line.value.path);
    var headers := ParseHeaders(block, eol + 2);
    head := Some(Head(ParseMethod(line.value.verb), url, line.value.query, headers));
  }
}
