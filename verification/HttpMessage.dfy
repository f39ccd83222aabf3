/**
  * Request messages written as in sections 2.2, 3 and 5 of RFC 9112, and what the server reads from
  * them (components/web_server_base/web_server_host.cpp, parse_request_), in every chunking.
  */
module HttpMessage {
  import opened Common
  import opened HttpChunking
  import opened HttpRequest
  import opened Query
  import opened Strings

  /** `name:` whitespace `value`, or a line without a colon, which is no field at all. */
  datatype Field = Field(name: string, space: string, value: string) | Junk(text: string)

  datatype Message = Message(verb: string, path: string, query: Option<string>, version: string, fields: seq<Field>, body: string)

  predicate Clean(s: string) {
    '\r' !in s && '\n' !in s
  }

  predicate Blank(c: char) {
    c == ' ' || c == '\t'
  }

  predicate ValidField(f: Field) {
    match f
    case Field(name, space, value) =>
      Clean(name) && ':' !in name && (forall c <- space :: Blank(c)) && Clean(value) && (value == "" || !Blank(value[0]))
    case Junk(text) => Clean(text) && ':' !in text && text != ""
  }

  predicate Valid(m: Message) {
    Clean(m.verb) && ' ' !in m.verb && Clean(m.path) && ' ' !in m.path && '?' !in m.path &&
    (m.query.Some? ==> Clean(m.query.value) && ' ' !in m.query.value) && Clean(m.version) &&
    forall i :: 0 <= i < |m.fields| ==> ValidField(m.fields[i])
  }

  function Target(m: Message): string {
    m.path + if m.query.Some? then "?" + m.query.value else ""
  }

  function StartLine(m: Message): string {
    m.verb + " " + Target(m) + " " + m.version
  }

  function FieldText(f: Field): string {
    match f
    case Field(name, space, value) => name + ":" + (space + value)
    case Junk(text) => text
  }

  function FieldTexts(fields: seq<Field>): (t: seq<string>)
    ensures |t| == |fields|
  {
    if fields == [] then [] else [FieldText(fields[0])] + FieldTexts(fields[1..])
  }

  function Joined(lines: seq<string>): string
    requires lines != []
  {
    if |lines| == 1 then lines[0] else lines[0] + CRLF + Joined(lines[1..])
  }

  function Block(m: Message): string {
    Joined([StartLine(m)] + FieldTexts(m.fields))
  }

  function Stream(m: Message): string {
    Block(m) + END + m.body
  }

  /** The key is the name in small letters. */
  predicate SmallOf(name: string, key: string) {
    |name| == |key| &&
    forall i :: 0 <= i < |name| ==>
      if 'A' <= name[i] <= 'Z' then key[i] as int - 'a' as int == name[i] as int - 'A' as int else key[i] == name[i]
  }

  /** The last value given under a name, whatever its case. */
  function LastValue(fields: seq<Field>, key: string): Option<string> {
    if fields == [] then None
    else
      var later := LastValue(fields[1..], key);
      if later.Some? then later
      else if fields[0].Field? && SmallOf(fields[0].name, key) then Some(fields[0].value) else None
  }

  lemma {:induction false} LowercaseAt(s: string, i: nat)
    requires i < |s|
    ensures Lowercase(s)[i] == if 'A' <= s[i] <= 'Z' then (s[i] as int + 32) as char else s[i]
  {
    if i > 0 {
      LowercaseAt(s[1..], i - 1);
    }
  }

  lemma {:induction false} LowercaseIsSmall(name: string, key: string)
    ensures Lowercase(name) == key <==> SmallOf(name, key)
  {
    forall i | 0 <= i < |name|
      ensures Lowercase(name)[i] == if 'A' <= name[i] <= 'Z' then (name[i] as int + 32) as char else name[i]
    {
      LowercaseAt(name, i);
    }
    if |name| == |key| {
      forall i | 0 <= i < |name|
        ensures Lowercase(name)[i] == key[i] <==>
                if 'A' <= name[i] <= 'Z' then key[i] as int - 'a' as int == name[i] as int - 'A' as int else key[i] == name[i]
      {
        LowercaseAt(name, i);
      }
    }
  }

  // ----- lines -----

  ghost predicate CleanLines(lines: seq<string>) {
    forall i :: 0 <= i < |lines| ==> Clean(lines[i]) && lines[i] != ""
  }

  lemma {:induction false} CrlfAfter(pre: string, line: string, rest: string)
    requires Clean(line)
    ensures FindText(pre + line + CRLF + rest, CRLF, |pre|) == |pre| + |line|
    ensures FindText(pre + line, CRLF, |pre|) == |pre + line|
  {
    var s, t := pre + line + CRLF + rest, pre + line;
    forall j | |pre| <= j < |pre| + |line| ensures !At(s, CRLF, j) && !At(t, CRLF, j) {
      assert s[j] == line[j - |pre|] == t[j] && line[j - |pre|] in line;
      assert s[j + 0] != CRLF[0] && t[j + 0] != CRLF[0];
    }
    FindTextIs(s, CRLF, |pre|, |pre| + |line|);
    FindTextIs(t, CRLF, |pre|, |t|);
  }

  lemma {:induction false} LastLine(pre: string, l: string)
    requires Clean(l) && l != ""
    ensures FieldLines(pre + l, |pre|) == [l]
  {
    CrlfAfter(pre, l, "");
    LinesFrom(pre + l, |pre|, |pre + l|);
    assert (pre + l)[|pre|..|pre + l|] == l;
  }

  lemma {:induction false} LineWithin(pre: string, l: string, rest: string)
    ensures (pre + l + CRLF + rest)[|pre|..|pre| + |l|] == l
  {
  }

  lemma {:induction false} OneLine(pre: string, l: string, rest: string)
    requires Clean(l) && l != ""
    ensures var block := pre + l + CRLF + rest; FieldLines(block, |pre|) == [l] + FieldLines(block, |pre| + |l| + 2)
  {
    CrlfAfter(pre, l, rest);
    LineWithin(pre, l, rest);
    LineHere(pre + l + CRLF + rest, |pre|, |pre| + |l|, l);
  }

  lemma {:induction false} LineHere(block: string, pos: nat, e: nat, l: string)
    requires pos < |block| && e == FindText(block, CRLF, pos) && block[pos..e] == l && l != ""
    ensures FieldLines(block, pos) == [l] + FieldLines(block, e + 2)
  {
    LinesFrom(block, pos, e);
  }

  lemma {:induction false} FieldLinesOf(pre: string, lines: seq<string>)
    requires lines != [] && CleanLines(lines)
    ensures FieldLines(pre + Joined(lines), |pre|) == lines
    decreases |lines|
  {
    var l := lines[0];
    if |lines| == 1 {
      LastLine(pre, l);
      assert lines == [l];
    } else {
      var rest := Joined(lines[1..]);
      OneLine(pre, l, rest);
      ConcatAssociates(pre, l + CRLF, rest);
      ConcatAssociates(pre, l, CRLF);
      FieldLinesOf(pre + l + CRLF, lines[1..]);
      assert lines == [l] + lines[1..];
    }
  }

  lemma {:induction false} AtShifted(p: string, s: string, t: string, i: nat)
    ensures At(p + s, t, |p| + i) ==> At(s, t, i)
  {
    if At(p + s, t, |p| + i) {
      forall k | 0 <= k < |t| ensures s[i + k] == t[k] {
        assert (p + s)[|p| + i + k] == s[i + k];
      }
    }
  }

  lemma {:induction false} NoEndInside(lines: seq<string>, tail: string, j: nat)
    requires lines != [] && CleanLines(lines) && j < |Joined(lines)|
    ensures !At(Joined(lines) + END + tail, END, j)
    decreases |lines|
  {
    var l := lines[0];
    var s := Joined(lines) + END + tail;
    if j < |l| {
      assert s[j] == l[j] && l[j] in l;
      assert s[j + 0] != END[0];
    } else if |lines| > 1 {
      var s' := Joined(lines[1..]) + END + tail;
      assert s == l + CRLF + s';
      if j == |l| {
        assert lines[1] != "" && lines[1][0] in lines[1];
        assert s[j + 2] == s'[0] == lines[1][0];
        assert s[j + 2] != END[2];
      } else if j == |l| + 1 {
        assert s[j + 0] != END[0];
      } else {
        NoEndInside(lines[1..], tail, j - |l| - 2);
        AtShifted(l + CRLF, s', END, j - |l| - 2);
      }
    }
  }

  lemma {:induction false} HeadEndOfLines(lines: seq<string>, tail: string)
    requires lines != [] && CleanLines(lines)
    ensures HeadEnd(Joined(lines) + END + tail) == |Joined(lines)|
  {
    var s := Joined(lines) + END + tail;
    forall j | 0 <= j < |Joined(lines)| ensures !At(s, END, j) {
      NoEndInside(lines, tail, j);
    }
    FindTextIs(s, END, 0, |Joined(lines)|);
  }

  // ----- the start line -----

  lemma {:induction false} TargetParts(m: Message)
    requires Valid(m)
    ensures var t := Target(m); var q := Find(t, '?', 0);
            t[..q] == m.path && (if q < |t| then t[q + 1..] else "") == (if m.query.Some? then m.query.value else "")
    ensures ' ' !in Target(m) && Clean(Target(m))
  {
    var t := Target(m);
    assert forall j :: 0 <= j < |m.path| ==> t[j] == m.path[j] && m.path[j] in m.path;
    FindIs(t, '?', 0, |m.path|);
  }

  function QueryOf(m: Message): string {
    if m.query.Some? then m.query.value else ""
  }

  lemma {:induction false} StartLineParsed(m: Message)
    requires Valid(m)
    ensures ParseLine(StartLine(m)) == Some(RequestLine(m.verb, m.path, QueryOf(m)))
  {
    TargetParts(m);
    LineOfParts(m.verb, Target(m), m.version, m.path, QueryOf(m));
  }

  // ----- the fields -----

  lemma {:induction false} BlanksTrimmed(space: string, value: string)
    requires (forall c <- space :: Blank(c)) && (value == "" || !Blank(value[0]))
    ensures TrimLeft(space + value) == value
    decreases |space|
  {
    if space == "" {
      assert space + value == value;
    } else {
      assert space[0] in space && (space + value)[1..] == space[1..] + value;
      BlanksTrimmed(space[1..], value);
    }
  }

  lemma {:induction false} FieldAdded(headers: map<string, string>, f: Field)
    requires ValidField(f)
    ensures AddHeader(headers, FieldText(f)) == if f.Field? then headers[Lowercase(f.name) := f.value] else headers
    ensures Clean(FieldText(f)) && FieldText(f) != ""
  {
    if f.Field? {
      ColonAfter(f.name, f.space + f.value);
      BlanksTrimmed(f.space, f.value);
    }
  }

  lemma {:induction false} ColonAfter(name: string, text: string)
    requires ':' !in name
    ensures var t := name + ":" + text; Find(t, ':', 0) == |name| && t[..|name|] == name && t[|name| + 1..] == text
  {
    var t := name + ":" + text;
    assert forall j :: 0 <= j < |name| ==> t[j] == name[j] && name[j] in name;
    FindIs(t, ':', 0, |name|);
  }

  function Value(headers: map<string, string>, key: string): Option<string> {
    if key in headers then Some(headers[key]) else None
  }

  lemma {:induction false} FieldsAdded(headers: map<string, string>, fields: seq<Field>, key: string)
    requires forall i :: 0 <= i < |fields| ==> ValidField(fields[i])
    ensures Value(AddHeaders(headers, FieldTexts(fields)), key) ==
            if LastValue(fields, key).Some? then LastValue(fields, key) else Value(headers, key)
    decreases |fields|
  {
    if fields != [] {
      FieldAdded(headers, fields[0]);
      if fields[0].Field? {
        LowercaseIsSmall(fields[0].name, key);
      }
      var more := AddHeader(headers, FieldText(fields[0]));
      AddOne(headers, FieldTexts(fields), FieldText(fields[0]), FieldTexts(fields[1..]));
      FieldsAdded(more, fields[1..], key);
    }
  }

  lemma {:induction false} FieldTextsClean(fields: seq<Field>)
    requires forall i :: 0 <= i < |fields| ==> ValidField(fields[i])
    ensures CleanLines(FieldTexts(fields))
  {
    if fields != [] {
      FieldAdded(map[], fields[0]);
      FieldTextsClean(fields[1..]);
    }
  }

  // ----- Content-Length -----

  lemma {:induction false} AllDigits(s: string, i: nat)
    requires i <= |s| && Digits(s)
    ensures DigitsEnd(s, i) == |s|
    decreases |s| - i
  {
    if i < |s| {
      AllDigits(s, i + 1);
    }
  }

  lemma {:induction false} DecimalIsRead(n: Uint64)
    ensures Strtoul(Decimal(n)) == Some(n)
  {
    var s := Decimal(n);
    assert '0' <= s[0] <= '9';
    assert SkipWhitespace(s) == s;
    AllDigits(s, 0);
    assert s[0..|s|] == s;
    DecimalRoundTrip(n);
  }

  // ----- the message -----

  lemma {:induction false} FirstLineEnds(l: string, rest: string)
    requires Clean(l)
    ensures var block := l + CRLF + rest; FindText(block, CRLF, 0) == |l| < |block| && block[..|l|] == l
  {
    CrlfAfter("", l, rest);
    assert "" + l == l;
  }

  lemma {:induction false} BlockParts(m: Message)
    requires Valid(m) && m.fields != []
    ensures Block(m) == StartLine(m) + CRLF + Joined(FieldTexts(m.fields))
    ensures FieldLines(Block(m), |StartLine(m)| + 2) == FieldTexts(m.fields)
  {
    var l, texts := StartLine(m), FieldTexts(m.fields);
    FieldTextsClean(m.fields);
    assert ([l] + texts)[1..] == texts;
    FieldLinesOf(l + CRLF, texts);
  }

  lemma {:induction false} HeadParts(block: string, l: string, rest: string, line: RequestLine, texts: seq<string>)
    requires block == l + CRLF + rest && Clean(l) && ParseLine(l) == Some(line) && FieldLines(block, |l| + 2) == texts
    ensures ParseHead(block) ==
            Some(Head(ParseMethod(line.verb), Decoded(line.path), line.query, AddHeaders(map[], texts)))
  {
    FirstLineEnds(l, rest);
  }

  function HeadOf(m: Message): Head {
    Head(ParseMethod(m.verb), Decoded(m.path), QueryOf(m), AddHeaders(map[], FieldTexts(m.fields)))
  }

  lemma {:induction false} BlockParsed(m: Message)
    requires Valid(m) && m.fields != []
    ensures ParseHead(Block(m)) == Some(HeadOf(m))
  {
    BlockParts(m);
    StartLineParsed(m);
    var texts, l := FieldTexts(m.fields), StartLine(m);
    var rest := Joined(texts);
    HeadParts(l + CRLF + rest, l, rest, RequestLine(m.verb, m.path, QueryOf(m)), texts);
  }

  /** A message without fields: its header block is the request line alone, which has no line end. */
  lemma {:induction false} BareLineFails(m: Message)
    requires Valid(m) && m.fields == []
    ensures ParseHead(Block(m)) == None
  {
    CrlfAfter("", StartLine(m), "");
    assert "" + StartLine(m) == StartLine(m);
  }

  lemma {:induction false} BlockEnds(m: Message)
    requires Valid(m)
    ensures HeadEnd(Stream(m)) == |Block(m)| && Stream(m)[..|Block(m)|] == Block(m)
    ensures |Stream(m)| == |Block(m)| + 4 + |m.body| && Stream(m)[|Block(m)| + 4..] == m.body
  {
    FieldTextsClean(m.fields);
    HeadEndOfLines([StartLine(m)] + FieldTexts(m.fields), m.body);
  }

  /** Content-Length gives the body's length, or there is no body. */
  predicate DeclaresBody(m: Message) {
    LastValue(m.fields, "content-length") == Some(Decimal(|m.body|)) ||
    (LastValue(m.fields, "content-length") == None && m.body == "")
  }

  lemma {:induction false} LengthDeclared(m: Message, headers: map<string, string>)
    requires DeclaresBody(m) && |m.body| <= LIMIT && Value(headers, "content-length") == LastValue(m.fields, "content-length")
    ensures Wanted(headers) == |m.body|
  {
    DecimalIsRead(|m.body|);
  }

  lemma {:induction false} FrameOf(m: Message)
    requires Valid(m) && DeclaresBody(m) && |m.body| <= LIMIT
    ensures Frame(Block(m)) == if m.fields == [] then None else Some(Framed(HeadOf(m), |m.body|))
  {
    if m.fields == [] {
      BareLineFails(m);
    } else {
      BlockParsed(m);
      FieldsAdded(map[], m.fields, "content-length");
      LengthDeclared(m, AddHeaders(map[], FieldTexts(m.fields)));
    }
  }

  lemma {:induction false} StreamRead(parse: HeadParser, m: Message, chunks: seq<string>)
    requires Valid(m) && |Stream(m)| <= LIMIT && Chunking(chunks, Stream(m))
    requires parse(Block(m)).Some? ==> parse(Block(m)).value.want == |m.body|
    ensures Parsed(parse, chunks).request ==
            if parse(Block(m)).None? then None else Some(Request(parse(Block(m)).value.head, m.body))
  {
    BlockEnds(m);
    RobustMeetsReference(parse, Stream(m), chunks);
  }

  // ----- what is read from a message -----

  /** The methods by name; ANY stands for every other one. */
  function MethodText(v: HttpMethod): string {
    match v
    case GET => "GET"
    case POST => "POST"
    case PUT => "PUT"
    case DELETE => "DELETE"
    case OPTIONS => "OPTIONS"
    case HEAD => "HEAD"
    case PATCH => "PATCH"
    case ANY => "*"
  }

  predicate Named(m: string) {
    exists v :: v != ANY && m == MethodText(v)
  }

  predicate VerbIs(v: HttpMethod, m: string) {
    if v == ANY then !Named(m) else m == MethodText(v)
  }

  /** Exactly one method fits a name. */
  lemma {:induction false} MethodRead(m: string, v: HttpMethod)
    ensures ParseMethod(m) == v <==> VerbIs(v, m)
  {
    var p := ParseMethod(m);
    if p != ANY {
      assert m == MethodText(p);
    }
    if Named(m) {
      var w :| w != ANY && m == MethodText(w);
      assert p == w;
    }
  }

  /** Each name, in small letters, has the last value it was given, and there are no other names. */
  ghost predicate FieldsAre(headers: map<string, string>, fields: seq<Field>) {
    forall key :: Value(headers, key) == LastValue(fields, key)
  }

  /** The request says what the message says: the method by its name, the characters the path reads
      as, the query as it stands, the last value of each field, the body. */
  ghost predicate Means(r: Request, m: Message) {
    && VerbIs(r.head.verb, m.verb)
    && Reads(m.path, r.head.url)
    && r.head.query == (if m.query.Some? then m.query.value else "")
    && FieldsAre(r.head.headers, m.fields)
    && r.body == m.body
  }

  lemma {:induction false} HeadersAreLastValues(m: Message)
    requires Valid(m)
    ensures FieldsAre(HeadOf(m).headers, m.fields)
  {
    forall key ensures Value(HeadOf(m).headers, key) == LastValue(m.fields, key) {
      FieldsAdded(map[], m.fields, key);
    }
  }

  lemma {:induction false} HeadMeans(m: Message)
    requires Valid(m)
    ensures Means(Request(HeadOf(m), m.body), m)
  {
    MethodRead(m.verb, ParseMethod(m.verb));
    DecodedIff(m.path, Decoded(m.path));
    HeadersAreLastValues(m);
  }

  lemma {:induction false} HeadIsRead(m: Message, chunks: seq<string>)
    requires Valid(m) && DeclaresBody(m) && |Stream(m)| <= LIMIT && Chunking(chunks, Stream(m))
    ensures Parsed(Frame, chunks).request == if m.fields == [] then None else Some(Request(HeadOf(m), m.body))
  {
    BlockEnds(m);
    FrameOf(m);
    StreamRead(Frame, m, chunks);
  }

  /**
    * A well-formed message of at most 32768 bytes is read with its own meaning in every chunking,
    * exactly when it has a field at all; without one it is refused.
    */
  lemma {:induction false} MessageReadIff(m: Message, chunks: seq<string>)
    requires Valid(m) && DeclaresBody(m) && |Stream(m)| <= 32768 && Chunking(chunks, Stream(m))
    ensures var r := Parsed(Frame, chunks).request;
            && (r.Some? <==> m.fields != [])
            && (r.Some? ==> Means(r.value, m))
  {
    HeadIsRead(m, chunks);
    HeadMeans(m);
  }

  lemma {:induction false} ReadsOneWay(text: string, a: string, b: string)
    requires Reads(text, a) && Reads(text, b)
    ensures a == b
  {
    DecodedIff(text, a);
    DecodedIff(text, b);
  }

  /** A message means one request only. */
  lemma {:induction false} MeaningIsUnique(a: Request, b: Request, m: Message)
    requires Means(a, m) && Means(b, m)
    ensures a == b
  {
    MethodRead(m.verb, a.head.verb);
    MethodRead(m.verb, b.head.verb);
    ReadsOneWay(m.path, a.head.url, b.head.url);
    var h, k := a.head.headers, b.head.headers;
    forall key ensures (key in h <==> key in k) && (key in h ==> h[key] == k[key]) {
      assert Value(h, key) == LastValue(m.fields, key) == Value(k, key);
    }
    assert h == k;
  }
}
