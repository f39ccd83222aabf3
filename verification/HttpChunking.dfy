/**
  * Where recv cuts the stream (components/web_server_base/web_server_host.cpp, parse_request_):
  * the request read from the socket against a reference parse of the whole stream, whose body is
  * the number of bytes Content-Length declares (sections 2.2 and 6 of RFC 9112).
  */
module HttpChunking {
  import opened Common
  import opened HttpRequest
  import opened Strings

  function Reference(parse: HeadParser, s: string): Option<Request> {
    var h := HeadEnd(s);
    if h == |s| || h + 4 > LIMIT || parse(s[..h]).None? then None
    else
      var framed := parse(s[..h]).value;
      Some(Request(framed.head, Truncate(s[h + 4..], framed.want)))
  }

  ghost predicate ChunkSizes(chunks: seq<string>) {
    forall i :: 0 <= i < |chunks| ==> 1 <= |chunks[i]| <= CHUNK_SIZE
  }

  ghost predicate Chunking(chunks: seq<string>, s: string) {
    ChunkSizes(chunks) && Flatten(chunks) == s
  }

  // ----- the head -----

  lemma {:induction false} HeadEndOfPrefix(buf: string, s: string)
    requires buf <= s
    ensures Complete(buf) ==> HeadEnd(s) == HeadEnd(buf)
    ensures !Complete(buf) && Complete(s) ==> |buf| < HeadEnd(s) + 4
  {
    FindTextFirst(buf, END, 0);
    FindTextFirst(s, END, 0);
    forall j: nat | j + 4 <= |buf| ensures At(buf, END, j) == At(s, END, j) {
    }
    if Complete(buf) {
      FindTextIs(s, END, 0, HeadEnd(buf));
    }
  }

  lemma {:induction false} HeadNeverComplete(buf: string, chunks: seq<string>)
    requires !Complete(buf + Flatten(chunks))
    ensures ReadHead(buf, chunks).buf.None?
    decreases |chunks|
  {
    if chunks != [] {
      var more := buf + chunks[0];
      assert more + Flatten(chunks[1..]) == buf + Flatten(chunks);
      HeadEndOfPrefix(more, buf + Flatten(chunks));
      HeadNeverComplete(more, chunks[1..]);
    }
  }

  lemma {:induction false} NothingFollows(buf: string, chunks: seq<string>)
    requires chunks == []
    ensures buf + Flatten(chunks) == buf
  {
  }

  /** What has been read when the head is complete, and when reading it fails. */
  lemma {:induction false} HeadRead(buf: string, chunks: seq<string>, s: string)
    requires ChunkSizes(chunks) && s == buf + Flatten(chunks)
    requires Complete(s) && !Complete(buf) && |buf| <= LIMIT
    ensures var r := ReadHead(buf, chunks);
            if r.buf.Some? then r.buf.value + Flatten(r.rest) == s && HeadEnd(s) + 4 <= |r.buf.value| <= LIMIT
            else Min(|s|, HeadEnd(s) + 1027) > LIMIT
    decreases |chunks|
  {
    if chunks == [] {
      NothingFollows(buf, chunks);
    } else {
      var more := buf + chunks[0];
      assert s == more + Flatten(chunks[1..]);
      HeadEndOfPrefix(buf, s);
      HeadEndOfPrefix(more, s);
      if |more| <= LIMIT && !Complete(more) {
        HeadRead(more, chunks[1..], s);
      }
    }
  }

  // ----- the body -----

  lemma {:induction false} BodyIsAll(body: string, want: nat, chunks: seq<string>)
    requires |body + Flatten(chunks)| <= want
    ensures ReadBody(body, want, chunks).body == body + Flatten(chunks)
    decreases |chunks|
  {
    if chunks != [] {
      assert body + chunks[0] + Flatten(chunks[1..]) == body + Flatten(chunks);
      BodyIsAll(body + chunks[0], want, chunks[1..]);
      if |body| >= want {
        assert Flatten(chunks) == "";
      }
    }
  }

  // ----- one byte at a time -----

  function Singles(s: string): seq<string> {
    if s == "" then [] else [[s[0]]] + Singles(s[1..])
  }

  lemma {:induction false} SinglesChunking(s: string)
    ensures Chunking(Singles(s), s)
  {
    if s != "" {
      SinglesChunking(s[1..]);
      var c := Singles(s);
      assert c[1..] == Singles(s[1..]);
      assert [s[0]] + s[1..] == s;
    }
  }

  lemma {:induction false} ChunkingConcat(a: seq<string>, s: string, b: seq<string>, t: string)
    requires Chunking(a, s) && Chunking(b, t)
    ensures Chunking(a + b, s + t)
    decreases |a|
  {
    if a == [] {
      assert a + b == b && s + t == t;
    } else {
      assert (a + b)[1..] == a[1..] + b;
      ChunkingConcat(a[1..], Flatten(a[1..]), b, t);
      assert a[0] + (Flatten(a[1..]) + t) == s + t;
    }
  }

  lemma {:induction false} SinglesStep(x: string, more: seq<string>)
    requires x != ""
    ensures (Singles(x) + more)[0] == [x[0]] && (Singles(x) + more)[1..] == Singles(x[1..]) + more
  {
  }

  lemma {:induction false} HeadSkips(buf: string, x: string, more: seq<string>)
    requires !Complete(buf + x) && |buf + x| <= LIMIT
    ensures ReadHead(buf, Singles(x) + more) == ReadHead(buf + x, more)
    decreases |x|
  {
    if x == "" {
      assert buf + x == buf && Singles(x) + more == more;
    } else {
      SinglesStep(x, more);
      assert buf + [x[0]] + x[1..] == buf + x;
      HeadEndOfPrefix(buf + [x[0]], buf + x);
      HeadSkips(buf + [x[0]], x[1..], more);
    }
  }

  lemma {:induction false} BodySkips(body: string, want: nat, x: string, more: seq<string>)
    requires |body| + |x| <= want
    ensures ReadBody(body, want, Singles(x) + more) == ReadBody(body + x, want, more)
    decreases |x|
  {
    if x == "" {
      assert body + x == body && Singles(x) + more == more;
    } else {
      SinglesStep(x, more);
      assert body + [x[0]] + x[1..] == body + x;
      BodySkips(body + [x[0]], want, x[1..], more);
    }
  }

  lemma {:induction false} SinglesConcat(a: string, b: string)
    ensures Singles(a + b) == Singles(a) + Singles(b)
  {
    if a == "" {
      assert a + b == b;
    } else {
      assert (a + b)[1..] == a[1..] + b;
      SinglesConcat(a[1..], b);
    }
  }

  lemma {:induction false} BodyOfSingles(want: nat, tail: string)
    ensures ReadBody("", want, Singles(tail)).body == Truncate(tail, want)
  {
    var x := Truncate(tail, want);
    assert tail == x + tail[|x|..] && "" + x == x;
    SinglesConcat(x, tail[|x|..]);
    BodySkips("", want, x, Singles(tail[|x|..]));
  }

  lemma {:induction false} OneMoreChunk(buf: string, last: string, rest: seq<string>)
    ensures ReadHead(buf, [last] + rest) ==
            if |buf + last| > LIMIT then ReadHeadResult(None, rest)
            else if Complete(buf + last) then ReadHeadResult(Some(buf + last), rest)
            else ReadHead(buf + last, rest)
  {
    assert ([last] + rest)[1..] == rest;
  }

  /** A buffer that ends inside the last chunk: reading goes on up to it byte by byte. */
  lemma {:induction false} HeadStraddled(s: string, last: string, rest: seq<string>)
    requires Complete(s) && HeadEnd(s) + 3 + |last| <= |s| && last != ""
    requires last == s[HeadEnd(s) + 3..HeadEnd(s) + 3 + |last|] && HeadEnd(s) + 3 <= LIMIT
    ensures ReadHead("", Singles(s[..HeadEnd(s) + 3]) + ([last] + rest)) ==
            if HeadEnd(s) + 3 + |last| > LIMIT then ReadHeadResult(None, rest)
            else ReadHeadResult(Some(s[..HeadEnd(s) + 3 + |last|]), rest)
  {
    var x, more := s[..HeadEnd(s) + 3], s[..HeadEnd(s) + 3 + |last|];
    assert "" + x == x && x + last == more;
    NotCompleteBefore(s, |x|);
    HeadSkips("", x, [last] + rest);
    OneMoreChunk(x, last, rest);
    HeadEndOfPrefix(more, s);
  }

  lemma {:induction false} NotCompleteBefore(s: string, n: nat)
    requires Complete(s) && n <= |s| && n < HeadEnd(s) + 4
    ensures !Complete(s[..n])
  {
    HeadEndOfPrefix(s[..n], s);
  }

  // ----- the request -----

  lemma {:induction false} FinishOfPrefix(parse: HeadParser, s: string, buf: string, rest: seq<string>)
    requires buf <= s && Complete(buf)
    ensures Complete(s) && HeadEnd(s) == HeadEnd(buf) && HeadEnd(s) + 4 <= |buf|
    ensures Finish(parse, buf, rest).request ==
            var framed := parse(s[..HeadEnd(s)]);
            if framed.None? then None
            else Some(Request(framed.value.head, ReadBody(buf[HeadEnd(s) + 4..], framed.value.want, rest).body))
  {
    HeadEndOfPrefix(buf, s);
    assert buf[..HeadEnd(s)] == s[..HeadEnd(s)];
  }

  /** The head delivered byte by byte, whatever way the body comes. */
  lemma {:induction false} HeadByByte(parse: HeadParser, s: string, rest: seq<string>, chunks: seq<string>)
    requires Complete(s) && HeadEnd(s) + 4 <= LIMIT
    requires chunks == Singles(s[..HeadEnd(s) + 3]) + ([s[HeadEnd(s) + 3..HeadEnd(s) + 4]] + rest)
    ensures var framed := parse(s[..HeadEnd(s)]);
            Parsed(parse, chunks).request ==
            if framed.None? then None else Some(Request(framed.value.head, ReadBody("", framed.value.want, rest).body))
  {
    var h := HeadEnd(s);
    HeadStraddled(s, s[h + 3..h + 4], rest);
    FinishOfPrefix(parse, s, s[..h + 4], rest);
    assert s[..h + 4][h + 4..] == "";
  }

  lemma {:induction false} SinglesAround(s: string, p: nat)
    requires p < |s|
    ensures Singles(s) == Singles(s[..p]) + ([s[p..p + 1]] + Singles(s[p + 1..]))
  {
    CutAtHead(s, p, |s|);
    assert s[..|s|] == s && s[p + 1..|s|] == s[p + 1..];
  }

  lemma {:induction false} OneByteBody(parse: HeadParser, s: string)
    requires Complete(s) && HeadEnd(s) + 4 <= LIMIT
    ensures Parsed(parse, Singles(s)).request == Reference(parse, s)
  {
    var h := HeadEnd(s);
    SinglesAround(s, h + 3);
    HeadByByte(parse, s, Singles(s[h + 4..]), Singles(s));
    if parse(s[..h]).Some? {
      BodyOfSingles(parse(s[..h]).value.want, s[h + 4..]);
    }
  }

  /** Delivered byte by byte, every stream gives the reference request. */
  lemma {:induction false} OneByteChunksMeetReference(parse: HeadParser, s: string)
    ensures Parsed(parse, Singles(s)).request == Reference(parse, s)
  {
    SinglesChunking(s);
    assert "" + s == s;
    if !Complete(s) {
      HeadNeverComplete("", Singles(s));
    } else if HeadEnd(s) + 4 > LIMIT {
      HeadRead("", Singles(s), s);
    } else {
      OneByteBody(parse, s);
    }
  }

  /** The streams whose request cannot depend on the chunks. */
  predicate Robust(parse: HeadParser, s: string) {
    var h := HeadEnd(s);
    if h == |s| || h + 4 > LIMIT || parse(s[..h]).None? then true
    else Min(|s|, h + 1027) <= LIMIT && |s| <= h + 4 + parse(s[..h]).value.want
  }

  lemma {:induction false} RobustBody(parse: HeadParser, s: string, buf: string, rest: seq<string>)
    requires Robust(parse, s) && Complete(buf) && |buf| <= LIMIT && buf + Flatten(rest) == s
    ensures Finish(parse, buf, rest).request == Reference(parse, s)
  {
    FinishOfPrefix(parse, s, buf, rest);
    var h := HeadEnd(s);
    assert buf[h + 4..] + Flatten(rest) == s[h + 4..];
    if parse(s[..h]).Some? {
      BodyIsAll(buf[h + 4..], parse(s[..h]).value.want, rest);
    }
  }

  lemma {:induction false} RobustMeetsReference(parse: HeadParser, s: string, chunks: seq<string>)
    requires Robust(parse, s) && Chunking(chunks, s)
    ensures Parsed(parse, chunks).request == Reference(parse, s)
  {
    assert "" + s == s;
    if !Complete(s) {
      HeadNeverComplete("", chunks);
    } else {
      HeadRead("", chunks, s);
      var r := ReadHead("", chunks);
      if r.buf.Some? {
        RobustBody(parse, s, r.buf.value, r.rest);
      }
    }
  }

  /** Cut so that `last` arrives as one chunk. */
  function CutAround(s: string, from: nat, to: nat): seq<string>
    requires from < to <= |s|
  {
    Singles(s[..from]) + ([s[from..to]] + Singles(s[to..]))
  }

  lemma {:induction false} CutAroundChunking(s: string, from: nat, to: nat)
    requires from < to <= |s| && to - from <= CHUNK_SIZE
    ensures Chunking(CutAround(s, from, to), s)
  {
    SinglesChunking(s[..from]);
    SinglesChunking(s[to..]);
    var one := [s[from..to]];
    assert one[1..] == [] && Flatten(one) == s[from..to] + Flatten(one[1..]);
    assert s[from..to] + [] == s[from..to];
    ChunkingConcat(one, s[from..to], Singles(s[to..]), s[to..]);
    ChunkingConcat(Singles(s[..from]), s[..from], one + Singles(s[to..]), s[from..to] + s[to..]);
    assert s[..from] + (s[from..to] + s[to..]) == s;
  }

  lemma {:induction false} TooMuchAtOnce(parse: HeadParser, s: string)
    requires Complete(s) && HeadEnd(s) + 4 <= LIMIT < Min(|s|, HeadEnd(s) + 1027)
    ensures exists c :: Chunking(c, s) && Parsed(parse, c).request == None
  {
    var h := HeadEnd(s);
    var to := Min(|s|, h + 1027);
    CutAroundChunking(s, h + 3, to);
    HeadStraddled(s, s[h + 3..to], Singles(s[to..]));
    assert Parsed(parse, CutAround(s, h + 3, to)).request == None;
  }

  /** The body cut so that a chunk of two bytes holds the last byte wanted and one more. */
  function CutBody(tail: string, want: nat): seq<string>
    requires 1 <= want < |tail|
  {
    Singles(tail[..want - 1]) + ([tail[want - 1..want + 1]] + Singles(tail[want + 1..]))
  }

  lemma {:induction false} BodyOverrun(want: nat, tail: string)
    requires 1 <= want < |tail|
    ensures ReadBody("", want, CutBody(tail, want)).body == tail[..want + 1]
  {
    var x, two, more := tail[..want - 1], tail[want - 1..want + 1], Singles(tail[want + 1..]);
    assert "" + x == x && x + two == tail[..want + 1];
    BodySkips("", want, x, [two] + more);
    assert ([two] + more)[1..] == more;
  }

  lemma {:induction false} OverrunAtHead(parse: HeadParser, s: string)
    requires Complete(s) && HeadEnd(s) + 5 <= |s| && HeadEnd(s) + 5 <= LIMIT
    requires parse(s[..HeadEnd(s)]).Some? && parse(s[..HeadEnd(s)]).value.want == 0
    ensures exists c :: Chunking(c, s) && Parsed(parse, c).request.Some? && |Parsed(parse, c).request.value.body| == 1
  {
    var h := HeadEnd(s);
    CutAroundChunking(s, h + 3, h + 5);
    HeadStraddled(s, s[h + 3..h + 5], Singles(s[h + 5..]));
    FinishOfPrefix(parse, s, s[..h + 5], Singles(s[h + 5..]));
    var c := CutAround(s, h + 3, h + 5);
    assert Parsed(parse, c).request.Some? && |Parsed(parse, c).request.value.body| == 1;
  }

  lemma {:induction false} OverrunAtBody(parse: HeadParser, s: string, want: nat) returns (c: seq<string>)
    requires Complete(s) && HeadEnd(s) + 4 <= LIMIT && |s| > HeadEnd(s) + 4 + want && want >= 1
    requires parse(s[..HeadEnd(s)]).Some? && parse(s[..HeadEnd(s)]).value.want == want
    ensures Chunking(c, s) && Parsed(parse, c).request.Some? && |Parsed(parse, c).request.value.body| == want + 1
  {
    var h := HeadEnd(s);
    var tail := s[h + 4..];
    c := CutAround(s, h + 3 + want, h + 5 + want);
    CutAroundChunking(s, h + 3 + want, h + 5 + want);
    CutInBody(s, h, want);
    BodyOverrun(want, tail);
    HeadByByte(parse, s, CutBody(tail, want), c);
  }

  lemma {:induction false} CutInBody(s: string, h: nat, want: nat)
    requires 1 <= want && |s| > h + 4 + want
    ensures CutAround(s, h + 3 + want, h + 5 + want) == Singles(s[..h + 3]) + ([s[h + 3..h + 4]] + CutBody(s[h + 4..], want))
  {
    var from, tail := h + 3 + want, s[h + 4..];
    CutAtHead(s, h + 3, from);
    SliceOfDrop(s, h + 4, 0, want - 1);
    SliceOfDrop(s, h + 4, want - 1, want + 1);
    SliceOfDrop(s, h + 4, want + 1, |tail|);
    var a, b, c, d := Singles(s[..h + 3]), [s[h + 3..h + 4]], Singles(s[h + 4..from]), [s[from..from + 2]] + Singles(s[from + 2..]);
    ConcatAssociates(a, b + c, d);
    ConcatAssociates(b, c, d);
  }

  lemma {:induction false} CutAtHead(s: string, p: nat, from: nat)
    requires p < from <= |s|
    ensures Singles(s[..from]) == Singles(s[..p]) + ([s[p..p + 1]] + Singles(s[p + 1..from]))
  {
    assert s[..from] == s[..p] + s[p..from];
    SinglesConcat(s[..p], s[p..from]);
    assert s[p..from][1..] == s[p + 1..from] && [s[p]] == s[p..p + 1];
    assert s[p..from][0] == s[p];
  }

  /** A stream gives its reference request in every chunking exactly when it is robust. */
  lemma {:induction false} ChunkingIndependentIff(parse: HeadParser, s: string)
    ensures (forall c :: Chunking(c, s) ==> Parsed(parse, c).request == Reference(parse, s)) <==> Robust(parse, s)
  {
    if Robust(parse, s) {
      forall c | Chunking(c, s) ensures Parsed(parse, c).request == Reference(parse, s) {
        RobustMeetsReference(parse, s, c);
      }
    } else {
      var h := HeadEnd(s);
      var want := parse(s[..h]).value.want;
      if Min(|s|, h + 1027) > LIMIT {
        TooMuchAtOnce(parse, s);
      } else if want == 0 {
        OverrunAtHead(parse, s);
      } else {
        var c := OverrunAtBody(parse, s, want);
        assert Parsed(parse, c).request != Reference(parse, s);
      }
    }
  }

  /** A stream of at most 32768 bytes with no more than its declared body is read the same in every chunking. */
  lemma {:induction false} DeclaredBodyIsRobust(parse: HeadParser, s: string)
    requires |s| <= LIMIT
    requires Complete(s) && parse(s[..HeadEnd(s)]).Some?
    requires |s| <= HeadEnd(s) + 4 + parse(s[..HeadEnd(s)]).value.want
    ensures forall a, b :: Chunking(a, s) && Chunking(b, s) ==> Parsed(parse, a).request == Parsed(parse, b).request
    ensures forall a :: Chunking(a, s) ==> Parsed(parse, a).request == Some(Request(parse(s[..HeadEnd(s)]).value.head, s[HeadEnd(s) + 4..]))
  {
    ChunkingIndependentIff(parse, s);
  }
}
