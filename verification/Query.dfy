/**
  * Query parameters of the web server (components/web_server_base/web_server_host.cpp,
  * url_decode_, find_query_value_ and getParam) against splitting on '&' and the first '=', and
  * against the application/x-www-form-urlencoded serializer of section 5 of the URL Standard.
  */
module Query {
  import opened Common
  import opened Strings

  // ----- percent decoding -----

  function HexDigit(c: char): (d: Option<nat>)
    ensures d.Some? ==> d.value < 16
  {
    if '0' <= c <= '9' then Some(c as int - '0' as int)
    else if 'a' <= c <= 'f' then Some(10 + (c as int - 'a' as int))
    else if 'A' <= c <= 'F' then Some(10 + (c as int - 'A' as int))
    else None
  }

  function Decoded(s: string): string
    decreases |s|
  {
    if s == "" then ""
    else if s[0] == '+' then " " + Decoded(s[1..])
    else if s[0] == '%' && 2 < |s| && HexDigit(s[1]).Some? && HexDigit(s[2]).Some? then
      [(16 * HexDigit(s[1]).value + HexDigit(s[2]).value) as char] + Decoded(s[3..])
    else [s[0]] + Decoded(s[1..])
  }

  method UrlDecode(text: string) returns (out: string)
    ensures out == Decoded(text)
  {
    out := "";
    var i := 0;
    while i < |text|
      invariant i <= |text| && out + Decoded(text[i..]) == Decoded(text)
    {
      var c := text[i];
      ghost var rest := text[i..];
      assert rest[1..] == text[i + 1..];
      if c == '+' {
        ConcatAssociates(out, " ", Decoded(rest[1..]));
        out := out + " ";
      } else if c == '%' && i + 2 < |text| {
        var hi, lo := HexDigit(text[i + 1]), HexDigit(text[i + 2]);
        if hi.Some? && lo.Some? {
          assert rest[3..] == text[i + 3..];
          ConcatAssociates(out, [(16 * hi.value + lo.value) as char], Decoded(rest[3..]));
          out := out + [(16 * hi.value + lo.value) as char];
          i := i + 2;
        } else {
          ConcatAssociates(out, [c], Decoded(rest[1..]));
          out := out + [c];
        }
      } else {
        ConcatAssociates(out, [c], Decoded(rest[1..]));
        out := out + [c];
      }
      i := i + 1;
    }
  }

  // ----- what encoded text says -----

  /** A piece of encoded text: a plus sign, an escape with its two digits, or a character that stands
      for itself. */
  datatype Token = Plus | Escape(hi: char, lo: char, high: nat, low: nat) | Plain(c: char)

  const LOWER_DIGITS := "0123456789abcdef"
  const UPPER_DIGITS := "0123456789ABCDEF"

  predicate IsHex(c: char, d: nat) {
    d < 16 && (c == LOWER_DIGITS[d] || c == UPPER_DIGITS[d])
  }

  predicate AnyHex(c: char) {
    c in LOWER_DIGITS || c in UPPER_DIGITS
  }

  function TokenText(t: Token): string {
    match t
    case Plus => "+"
    case Escape(hi, lo, _, _) => ['%', hi, lo]
    case Plain(c) => [c]
  }

  function Text(ts: seq<Token>): string {
    if ts == [] then "" else TokenText(ts[0]) + Text(ts[1..])
  }

  function TokenChar(t: Token): char {
    match t
    case Plus => ' '
    case Escape(_, _, a, b) => if a < 16 && b < 16 then (16 * a + b) as char else '%'
    case Plain(c) => c
  }

  function Meaning(ts: seq<Token>): string {
    if ts == [] then "" else [TokenChar(ts[0])] + Meaning(ts[1..])
  }

  /** Escapes have hexadecimal digits; only a percent sign without two of them behind it is plain. */
  predicate Fits(t: Token, rest: string) {
    match t
    case Plus => true
    case Escape(hi, lo, a, b) => IsHex(hi, a) && IsHex(lo, b)
    case Plain(c) => c != '+' && (c == '%' ==> |rest| < 2 || !AnyHex(rest[0]) || !AnyHex(rest[1]))
  }

  predicate WellRead(ts: seq<Token>) {
    ts == [] || (WellRead(ts[1..]) && Fits(ts[0], Text(ts[1..])))
  }

  /** The text can be read as these characters. */
  ghost predicate Reads(text: string, out: string) {
    exists ts :: Text(ts) == text && WellRead(ts) && Meaning(ts) == out
  }

  lemma {:induction false} HexDigitIs(c: char, d: nat)
    ensures IsHex(c, d) <==> HexDigit(c) == Some(d)
    ensures AnyHex(c) <==> HexDigit(c).Some?
  {
    if HexDigit(c).Some? {
      var v := HexDigit(c).value;
      assert c == LOWER_DIGITS[v] || c == UPPER_DIGITS[v];
    }
  }

  lemma {:induction false} EscapeRead(hi: char, lo: char, a: nat, b: nat, rest: string)
    requires IsHex(hi, a) && IsHex(lo, b)
    ensures Decoded(['%', hi, lo] + rest) == [(16 * a + b) as char] + Decoded(rest)
  {
    HexDigitIs(hi, a);
    HexDigitIs(lo, b);
    assert (['%', hi, lo] + rest)[3..] == rest;
  }

  lemma {:induction false} OneTokenRead(t: Token, rest: string)
    requires Fits(t, rest)
    ensures Decoded(TokenText(t) + rest) == [TokenChar(t)] + Decoded(rest)
  {
    var s := TokenText(t) + rest;
    match t
    case Plus => assert s[1..] == rest;
    case Escape(hi, lo, a, b) => EscapeRead(hi, lo, a, b, rest);
    case Plain(c) =>
      assert s[1..] == rest;
      if |rest| >= 2 {
        HexDigitIs(rest[0], 0);
        HexDigitIs(rest[1], 0);
      }
  }

  lemma {:induction false} TokensRead(ts: seq<Token>)
    requires WellRead(ts)
    ensures Decoded(Text(ts)) == Meaning(ts)
  {
    if ts != [] {
      TokensRead(ts[1..]);
      OneTokenRead(ts[0], Text(ts[1..]));
    }
  }

  lemma {:induction false} TokenAdded(t: Token, ts: seq<Token>)
    ensures Text([t] + ts) == TokenText(t) + Text(ts)
    ensures WellRead(ts) ==> (WellRead([t] + ts) <==> Fits(t, Text(ts)))
  {
    assert ([t] + ts)[1..] == ts;
  }

  lemma {:induction false} FirstToken(s: string) returns (t: Token)
    requires s != ""
    ensures |TokenText(t)| <= |s| && s == TokenText(t) + s[|TokenText(t)|..] && Fits(t, s[|TokenText(t)|..])
  {
    if s[0] == '+' {
      t := Plus;
    } else {
      t := Plain(s[0]);
      if 2 < |s| {
        HexDigitIs(s[1], 0);
        HexDigitIs(s[2], 0);
        if s[0] == '%' && HexDigit(s[1]).Some? && HexDigit(s[2]).Some? {
          var a, b := HexDigit(s[1]).value, HexDigit(s[2]).value;
          HexDigitIs(s[1], a);
          HexDigitIs(s[2], b);
          t := Escape(s[1], s[2], a, b);
        }
      }
    }
  }

  lemma {:induction false} EveryTextReads(s: string) returns (ts: seq<Token>)
    ensures Text(ts) == s && WellRead(ts)
    decreases |s|
  {
    ts := [];
    if s != "" {
      var t := FirstToken(s);
      ts := EveryTextReads(s[|TokenText(t)|..]);
      TokenAdded(t, ts);
      ts := [t] + ts;
    }
  }

  /** Every text can be read in exactly one way, malformed escapes included, and url_decode_ does. */
  lemma {:induction false} DecodedIff(text: string, out: string)
    ensures Decoded(text) == out <==> Reads(text, out)
  {
    if Decoded(text) == out {
      var ts := EveryTextReads(text);
      TokensRead(ts);
    } else if Reads(text, out) {
      var ts :| Text(ts) == text && WellRead(ts) && Meaning(ts) == out;
      TokensRead(ts);
      assert false;
    }
  }

  // ----- the form serializer -----

  type Octet = c: char | c as int < 256

  /** The octets the serializer leaves as they are. */
  predicate Literal(c: char) {
    '0' <= c <= '9' || 'a' <= c <= 'z' || 'A' <= c <= 'Z' || c == '*' || c == '-' || c == '.' || c == '_'
  }

  function UpperHex(d: nat): char
    requires d < 16
  {
    if d < 10 then ('0' as int + d) as char else ('A' as int + d - 10) as char
  }

  function EncodedOctet(c: Octet): string {
    if Literal(c) then [c]
    else if c == ' ' then "+"
    else ['%', UpperHex(c as int / 16), UpperHex(c as int % 16)]
  }

  function Encoded(s: seq<Octet>): string {
    if s == [] then "" else EncodedOctet(s[0]) + Encoded(s[1..])
  }

  lemma {:induction false} DecodeOctet(c: Octet, rest: string)
    ensures Decoded(EncodedOctet(c) + rest) == [c] + Decoded(rest)
  {
    var s := EncodedOctet(c) + rest;
    if Literal(c) || c == ' ' {
      assert s[1..] == rest;
    } else {
      assert s[3..] == rest;
      HexOfUpper(c as int / 16);
      HexOfUpper(c as int % 16);
      assert 16 * (c as int / 16) + c as int % 16 == c as int;
    }
  }

  lemma {:induction false} HexOfUpper(d: nat)
    requires d < 16
    ensures HexDigit(UpperHex(d)) == Some(d)
  {
  }

  /** Decoding undoes the serializer's encoding of every octet string. */
  lemma {:induction false} DecodeEncoded(s: seq<Octet>)
    ensures Decoded(Encoded(s)) == s
  {
    if s != [] {
      DecodeOctet(s[0], Encoded(s[1..]));
      DecodeEncoded(s[1..]);
    }
  }

  lemma {:induction false} EncodedIsClean(s: seq<Octet>)
    ensures forall c <- Encoded(s) :: c != '&' && c != '='
  {
    if s != [] {
      EncodedIsClean(s[1..]);
    }
  }

  lemma {:induction false} EncodedIsItselfIff(s: seq<Octet>)
    ensures Encoded(s) == s <==> forall c <- s :: Literal(c)
    ensures |Encoded(s)| >= |s|
  {
    if s != [] {
      EncodedIsItselfIff(s[1..]);
      var e := Encoded(s);
      if Literal(s[0]) {
        assert e[1..] == Encoded(s[1..]) && s == [s[0]] + s[1..];
      } else {
        assert s[0] == ' ' ==> e[0] != s[0];
      }
    }
  }

  // ----- lookup -----

  /** What one `name=value` or bare `name` piece says about a key. */
  function ValueIn(piece: string, key: string): Option<string> {
    var eq := Find(piece, '=', 0);
    if eq < |piece| then (if piece[..eq] == key then Some(Decoded(piece[eq + 1..])) else None)
    else if piece == key then Some("") else None
  }

  /** The first piece with the key. */
  function Lookup(pieces: seq<string>, key: string): Option<string> {
    if pieces == [] then None
    else if ValueIn(pieces[0], key).Some? then ValueIn(pieces[0], key)
    else Lookup(pieces[1..], key)
  }

  /** The scan's comparison at one piece, by index. */
  function Hit(src: string, key: string, pos: nat, amp: nat, eq: nat): Option<string>
    requires pos <= amp <= |src| && pos <= eq
  {
    if eq < amp then (if src[pos..eq] == key then Some(Decoded(src[eq + 1..amp])) else None)
    else if src[pos..amp] == key then Some("") else None
  }

  /** The index scan from a position. */
  function Scanned(src: string, key: string, pos: nat): Option<string>
    decreases |src| + 1 - pos
  {
    if pos >= |src| then None
    else
      var amp := Find(src, '&', pos);
      var hit := Hit(src, key, pos, amp, Find(src, '=', pos));
      if hit.Some? then hit else Scanned(src, key, amp + 1)
  }

  method HitAt(src: string, key: string, pos: nat, amp: nat) returns (r: Option<string>)
    requires pos <= amp <= |src|
    ensures r == Hit(src, key, pos, amp, Find(src, '=', pos))
  {
    var eq := Find(src, '=', pos);
    if eq < |src| && eq < amp {
      if src[pos..eq] == key {
        var v := UrlDecode(src[eq + 1..amp]);
        return Some(v);
      }
    } else {
      if src[pos..amp] == key {
        return Some("");
      }
    }
    return None;
  }

  method Scan(src: string, key: string) returns (r: Option<string>)
    ensures r == Scanned(src, key, 0)
  {
    var pos := 0;
    while pos < |src|
      invariant Scanned(src, key, pos) == Scanned(src, key, 0)
      decreases |src| + 1 - pos
    {
      var amp := Find(src, '&', pos);
      r := HitAt(src, key, pos, amp);
      if r.Some? {
        return;
      }
      pos := amp + 1;
    }
    r := None;
  }

  /** The scan never looks at an empty last piece. */
  predicate EmptyLastPiece(src: string) {
    src == "" || src[|src| - 1] == '&'
  }

  lemma {:induction false} PieceAt(src: string, key: string, pos: nat, amp: nat)
    requires pos < |src| && amp == Find(src, '&', pos)
    ensures ValueIn(src[pos..amp], key) == Hit(src, key, pos, amp, Find(src, '=', pos))
  {
    var eq := Find(src, '=', pos);
    FindInSlice(src, '=', pos, amp);
    if eq < amp {
      SliceParts(src, pos, eq, amp);
    }
  }

  lemma {:induction false} SliceParts(src: string, pos: nat, mid: nat, end: nat)
    requires pos <= mid < end <= |src|
    ensures src[pos..end][..mid - pos] == src[pos..mid] && src[pos..end][mid - pos + 1..] == src[mid + 1..end]
  {
  }

  lemma {:induction false} CutFirst(t: string, k: nat, piece: string, rest: string)
    requires k == Find(t, '&', 0) < |t| && t[..k] == piece && t[k + 1..] == rest
    ensures Pieces(t, '&') == [piece] + Pieces(rest, '&')
  {
  }

  lemma {:induction false} FindFrom(s: string, c: char, i: nat)
    requires i <= |s|
    ensures Find(s[i..], c, 0) == Find(s, c, i) - i
  {
    FindInSlice(s, c, i, |s|);
    assert s[i..|s|] == s[i..];
  }

  lemma {:induction false} LastPieceAt(src: string, pos: nat)
    requires pos <= |src| && Find(src, '&', pos) == |src|
    ensures Pieces(src[pos..], '&') == [src[pos..]]
  {
    FindFrom(src, '&', pos);
  }

  lemma {:induction false} PieceThenRest(src: string, pos: nat, amp: nat)
    requires pos <= |src| && amp == Find(src, '&', pos) < |src|
    ensures Pieces(src[pos..], '&') == [src[pos..amp]] + Pieces(src[amp + 1..], '&')
  {
    FindFrom(src, '&', pos);
    CutFirst(src[pos..], amp - pos, src[pos..amp], src[amp + 1..]);
  }

  lemma {:induction false} LookupFirst(piece: string, rest: seq<string>, key: string)
    ensures Lookup([piece], key) == ValueIn(piece, key)
    ensures Lookup([piece] + rest, key) ==
            if ValueIn(piece, key).Some? then ValueIn(piece, key) else Lookup(rest, key)
  {
    assert ([piece] + rest)[1..] == rest && [piece][1..] == [];
  }

  lemma {:induction false} ScannedStep(src: string, key: string, pos: nat, amp: nat)
    requires pos < |src| && amp == Find(src, '&', pos)
    ensures Scanned(src, key, pos) ==
            if ValueIn(src[pos..amp], key).Some? then ValueIn(src[pos..amp], key) else Scanned(src, key, amp + 1)
  {
    PieceAt(src, key, pos, amp);
  }

  /** The scan's answer, with what the split list says about an empty last piece. */
  function ScanOrEmpty(src: string, key: string, pos: nat): Option<string> {
    if Scanned(src, key, pos).None? && key == "" && EmptyLastPiece(src) then Some("") else Scanned(src, key, pos)
  }

  lemma {:induction false} SplitAtEnd(src: string, key: string, pos: nat)
    requires pos == |src| && EmptyLastPiece(src)
    ensures Lookup(Pieces(src[pos..], '&'), key) == ScanOrEmpty(src, key, pos)
  {
    assert src[pos..] == "";
    LookupFirst("", [], key);
  }

  lemma {:induction false} SplitAtLast(src: string, key: string, pos: nat)
    requires pos < |src| && Find(src, '&', pos) == |src|
    ensures Lookup(Pieces(src[pos..], '&'), key) == ScanOrEmpty(src, key, pos)
  {
    LastPieceAt(src, pos);
    LookupFirst(src[pos..], [], key);
    assert src[pos..] == src[pos..|src|];
    ScannedStep(src, key, pos, |src|);
    assert src[|src| - 1] != '&';
  }

  lemma {:induction false} SplitAtPiece(src: string, key: string, pos: nat, amp: nat)
    requires pos < |src| && amp == Find(src, '&', pos) < |src|
    requires Lookup(Pieces(src[amp + 1..], '&'), key) == ScanOrEmpty(src, key, amp + 1)
    ensures Lookup(Pieces(src[pos..], '&'), key) == ScanOrEmpty(src, key, pos)
  {
    PieceThenRest(src, pos, amp);
    LookupFirst(src[pos..amp], Pieces(src[amp + 1..], '&'), key);
    ScannedStep(src, key, pos, amp);
  }

  lemma {:induction false} ScanFromRefinesSplit(src: string, key: string, pos: nat)
    requires pos <= |src| && (pos == |src| ==> EmptyLastPiece(src))
    ensures Lookup(Pieces(src[pos..], '&'), key) == ScanOrEmpty(src, key, pos)
    decreases |src| - pos
  {
    var amp := Find(src, '&', pos);
    if pos == |src| {
      SplitAtEnd(src, key, pos);
    } else if amp == |src| {
      SplitAtLast(src, key, pos);
    } else {
      ScanFromRefinesSplit(src, key, amp + 1);
      SplitAtPiece(src, key, pos, amp);
    }
  }

  /** For every non-empty key the scan is the lookup in the split list. */
  lemma {:induction false} ScanIsSplitLookup(src: string, key: string)
    requires key != ""
    ensures Scanned(src, key, 0) == Lookup(Pieces(src, '&'), key)
  {
    if src != "" {
      ScanFromRefinesSplit(src, key, 0);
      assert src[0..] == src;
    } else {
      assert Pieces(src, '&')[1..] == [];
    }
  }

  /** A piece says that the key has the value: the key alone, with an empty value, or the key, an
      equals sign and text that reads as the value. */
  ghost predicate Says(piece: string, key: string, v: string) {
    (piece == key && '=' !in piece && v == "") ||
    ('=' !in key && exists raw :: piece == key + "=" + raw && Reads(raw, v))
  }

  lemma {:induction false} KeyEnds(key: string, raw: string)
    requires '=' !in key
    ensures var piece := key + "=" + raw;
            Find(piece, '=', 0) == |key| < |piece| && piece[..|key|] == key && piece[|key| + 1..] == raw
  {
    var piece := key + "=" + raw;
    assert forall j :: 0 <= j < |key| ==> piece[j] == key[j] && key[j] in key;
    FindIs(piece, '=', 0, |key|);
  }

  lemma {:induction false} PairSays(piece: string, key: string, v: string, eq: nat)
    requires eq == Find(piece, '=', 0) < |piece|
    ensures Says(piece, key, v) <==> piece[..eq] == key && Decoded(piece[eq + 1..]) == v
  {
    var raw := piece[eq + 1..];
    DecodedIff(raw, v);
    assert piece == piece[..eq] + "=" + raw && piece[eq] in piece;
    if '=' !in key && exists r :: piece == key + "=" + r && Reads(r, v) {
      var r :| piece == key + "=" + r && Reads(r, v);
      KeyEnds(key, r);
    }
  }

  lemma {:induction false} BareSays(piece: string, key: string, v: string)
    requires Find(piece, '=', 0) == |piece|
    ensures Says(piece, key, v) <==> piece == key && v == ""
  {
    forall r ensures '=' in key + "=" + r {
      assert (key + "=" + r)[|key|] == '=';
    }
  }

  lemma {:induction false} ValueInIff(piece: string, key: string, v: string)
    ensures ValueIn(piece, key) == Some(v) <==> Says(piece, key, v)
  {
    var eq := Find(piece, '=', 0);
    if eq < |piece| {
      PairSays(piece, key, v, eq);
    } else {
      BareSays(piece, key, v);
    }
  }

  /** The first piece that says something of the key says this value. */
  ghost predicate FirstSays(pieces: seq<string>, key: string, v: string) {
    exists i :: 0 <= i < |pieces| && Says(pieces[i], key, v) && forall j, w :: 0 <= j < i ==> !Says(pieces[j], key, w)
  }

  lemma {:induction false} LookupIff(pieces: seq<string>, key: string, v: string)
    ensures Lookup(pieces, key) == Some(v) <==> FirstSays(pieces, key, v)
  {
    if pieces != [] {
      var rest := pieces[1..];
      forall w ensures ValueIn(pieces[0], key) == Some(w) <==> Says(pieces[0], key, w) {
        ValueInIff(pieces[0], key, w);
      }
      if ValueIn(pieces[0], key).Some? {
        assert Says(pieces[0], key, ValueIn(pieces[0], key).value);
      } else {
        LookupIff(rest, key, v);
        if FirstSays(rest, key, v) {
          var i :| 0 <= i < |rest| && Says(rest[i], key, v) && forall j, w :: 0 <= j < i ==> !Says(rest[j], key, w);
          assert pieces[i + 1] == rest[i];
          forall j, w | 0 <= j < i + 1 ensures !Says(pieces[j], key, w) {
            if j > 0 {
              assert pieces[j] == rest[j - 1];
            }
          }
        }
        if FirstSays(pieces, key, v) {
          var i :| 0 <= i < |pieces| && Says(pieces[i], key, v) && forall j, w :: 0 <= j < i ==> !Says(pieces[j], key, w);
          assert pieces[i] == rest[i - 1];
          forall j, w | 0 <= j < i - 1 ensures !Says(rest[j], key, w) {
            assert rest[j] == pieces[j + 1];
          }
        }
      }
    }
  }

  /** What the lookup of a non-empty key means: cut the source at its ampersands; the first piece that
      says something of the key gives the value. */
  lemma {:induction false} ScanFindsIff(src: string, key: string, pieces: seq<string>, v: string)
    requires key != "" && Splits(pieces, '&', src)
    ensures Scanned(src, key, 0) == Some(v) <==> FirstSays(pieces, key, v)
  {
    PiecesIff(src, '&', pieces);
    ScanIsSplitLookup(src, key);
    LookupIff(pieces, key, v);
  }

  /** A piece with an empty name that the scan does look at. */
  ghost predicate EmptyNameAt(src: string, i: nat) {
    i < |src| && (i == 0 || src[i - 1] == '&') && (src[i] == '&' || src[i] == '=')
  }

  lemma {:induction false} NoEmptyNameBefore(src: string, pos: nat, amp: nat, i: nat)
    requires pos < |src| && (pos == 0 || src[pos - 1] == '&') && !EmptyNameAt(src, pos)
    requires pos <= i <= amp == Find(src, '&', pos)
    ensures !EmptyNameAt(src, i)
  {
  }

  lemma {:induction false} EmptyKeyStep(src: string, pos: nat, amp: nat)
    requires pos < |src| && amp == Find(src, '&', pos) && (pos == 0 || src[pos - 1] == '&')
    ensures Scanned(src, "", pos) == Scanned(src, "", amp + 1) || EmptyNameAt(src, pos)
    ensures EmptyNameAt(src, pos) ==> Scanned(src, "", pos).Some?
  {
    var eq := Find(src, '=', pos);
    if EmptyNameAt(src, pos) {
      assert src[pos..pos] == "";
    } else {
      assert |src[pos..amp]| > 0 && eq != pos;
      assert eq < amp ==> |src[pos..eq]| > 0;
    }
  }

  lemma {:induction false} EmptyNameFoundFrom(src: string, pos: nat)
    requires pos < |src| && (pos == 0 || src[pos - 1] == '&')
    ensures Scanned(src, "", pos).Some? <==> exists i :: pos <= i && EmptyNameAt(src, i)
    decreases |src| - pos
  {
    var amp := Find(src, '&', pos);
    EmptyKeyStep(src, pos, amp);
    if !EmptyNameAt(src, pos) {
      forall i | pos <= i <= amp ensures !EmptyNameAt(src, i) {
        NoEmptyNameBefore(src, pos, amp, i);
      }
      if amp + 1 < |src| {
        EmptyNameFoundFrom(src, amp + 1);
      }
    }
  }

  /** For the empty key the two agree exactly when no empty last piece is left out, or an earlier piece matched. */
  lemma {:induction false} EmptyKeyAgreesIff(src: string)
    ensures Scanned(src, "", 0) == Lookup(Pieces(src, '&'), "") <==>
            !EmptyLastPiece(src) || exists i :: EmptyNameAt(src, i)
  {
    assert src[0..] == src;
    ScanFromRefinesSplit(src, "", 0);
    if src != "" {
      EmptyNameFoundFrom(src, 0);
    }
  }

  lemma {:induction false} EmptyKeyMissed()
    ensures Scanned("a=1&", "", 0) == None && Lookup(Pieces("a=1&", '&'), "") == Some("")
  {
    var src := "a=1&";
    EmptyKeyAgreesIff(src);
    assert !exists i :: EmptyNameAt(src, i);
    assert src[0..] == src;
    ScanFromRefinesSplit(src, "", 0);
    EmptyNameFoundFrom(src, 0);
  }

  // ----- serialized parameter lists -----

  datatype Pair = Pair(name: seq<Octet>, value: seq<Octet>)

  function PairText(p: Pair): string {
    Encoded(p.name) + "=" + Encoded(p.value)
  }

  function Serialized(ps: seq<Pair>): string {
    if ps == [] then ""
    else if |ps| == 1 then PairText(ps[0])
    else PairText(ps[0]) + "&" + Serialized(ps[1..])
  }

  /** The value of the first pair whose encoded name is the key as written. */
  function FirstEncoded(ps: seq<Pair>, key: string): Option<string> {
    if ps == [] then None
    else if Encoded(ps[0].name) == key then Some(ps[0].value)
    else FirstEncoded(ps[1..], key)
  }

  /** The value of the first pair with the name. */
  function FirstNamed(ps: seq<Pair>, name: string): Option<string> {
    if ps == [] then None
    else if ps[0].name == name then Some(ps[0].value)
    else FirstNamed(ps[1..], name)
  }

  lemma {:induction false} ValueInPair(p: Pair, key: string)
    ensures ValueIn(PairText(p), key) == if Encoded(p.name) == key then Some(p.value) else None
    ensures '&' !in PairText(p)
  {
    EncodedIsClean(p.name);
    EncodedIsClean(p.value);
    DecodeEncoded(p.value);
    var t, n := PairText(p), Encoded(p.name);
    assert forall j :: 0 <= j < |n| ==> t[j] == n[j] && n[j] in n;
    assert t[|n|] == '=';
    assert Find(t, '=', 0) == |n|;
    assert t[..|n|] == n && t[|n| + 1..] == Encoded(p.value);
  }

  lemma {:induction false} CutPiece(a: string, rest: string)
    requires '&' !in a
    ensures Pieces(a, '&') == [a]
    ensures Pieces(a + "&" + rest, '&') == [a] + Pieces(rest, '&')
  {
    var s := a + "&" + rest;
    assert forall j :: 0 <= j < |a| ==> a[j] in a && s[j] == a[j];
    assert s[|a|] == '&';
    assert Find(s, '&', 0) == |a|;
    assert s[..|a|] == a && s[|a| + 1..] == rest;
    assert Find(a, '&', 0) == |a|;
  }

  lemma {:induction false} LookupSerialized(ps: seq<Pair>, key: string)
    requires ps != []
    ensures Lookup(Pieces(Serialized(ps), '&'), key) == FirstEncoded(ps, key)
  {
    ValueInPair(ps[0], key);
    CutPiece(PairText(ps[0]), Serialized(ps[1..]));
    var pieces := Pieces(Serialized(ps), '&');
    assert pieces[0] == PairText(ps[0]);
    if |ps| == 1 {
      assert pieces[1..] == [] && ps[1..] == [];
    } else {
      assert pieces[1..] == Pieces(Serialized(ps[1..]), '&');
      LookupSerialized(ps[1..], key);
    }
  }

  /** In any serialized parameter list, the scan finds the first value whose encoded name is the key. */
  lemma {:induction false} ScanSerialized(ps: seq<Pair>, key: string)
    requires key != ""
    ensures Scanned(Serialized(ps), key, 0) == FirstEncoded(ps, key)
  {
    if ps != [] {
      ScanIsSplitLookup(Serialized(ps), key);
      LookupSerialized(ps, key);
    }
  }

  lemma {:induction false} EncodedNameIsName(ps: seq<Pair>, key: seq<Octet>)
    requires Encoded(key) == key
    ensures FirstEncoded(ps, key) == FirstNamed(ps, key)
  {
    if ps != [] {
      DecodeEncoded(ps[0].name);
      DecodeEncoded(key);
      EncodedNameIsName(ps[1..], key);
    }
  }

  /**
    * The key is compared undecoded, so lookup by name recovers the value from every serialized
    * list exactly when the serializer writes the name as it is.
    */
  lemma {:induction false} LookupFaithfulIff(key: seq<Octet>)
    requires key != []
    ensures (forall ps: seq<Pair> :: Scanned(Serialized(ps), key, 0) == FirstNamed(ps, key)) <==>
            forall c <- key :: Literal(c)
  {
    EncodedIsItselfIff(key);
    if Encoded(key) == key {
      forall ps: seq<Pair> ensures Scanned(Serialized(ps), key, 0) == FirstNamed(ps, key) {
        ScanSerialized(ps, key);
        EncodedNameIsName(ps, key);
      }
    } else {
      var ps := [Pair(key, [])];
      ScanSerialized(ps, key);
      assert FirstEncoded(ps, key) == None by {
        assert ps[1..] == [];
      }
      assert Scanned(Serialized(ps), key, 0) != FirstNamed(ps, key);
    }
  }

  // ----- a request -----

  datatype AsyncWebParameter = AsyncWebParameter(name: string, value: string)

  const FORM := "application/x-www-form-urlencoded"

  /** The URL query first, then a form body. */
  function QueryValue(query: string, headers: map<string, string>, body: string, key: string): Option<string> {
    if Scanned(query, key, 0).Some? then Scanned(query, key, 0)
    else if "content-type" in headers && exists i :: 0 <= i < |headers["content-type"]| && At(headers["content-type"], FORM, i)
    then Scanned(body, key, 0)
    else None
  }

  lemma {:induction false} FirstNamedConcat(a: seq<Pair>, b: seq<Pair>, name: string)
    ensures FirstNamed(a + b, name) == if FirstNamed(a, name).Some? then FirstNamed(a, name) else FirstNamed(b, name)
  {
    if a == [] {
      assert a + b == b;
    } else {
      assert (a + b)[1..] == a[1..] + b;
      FirstNamedConcat(a[1..], b, name);
    }
  }

  /** The content type names the form encoding somewhere. */
  ghost predicate SaysForm(headers: map<string, string>) {
    "content-type" in headers && exists a, b :: headers["content-type"] == a + "application/x-www-form-urlencoded" + b
  }

  lemma {:induction false} FormIsFound(headers: map<string, string>)
    ensures SaysForm(headers) <==>
            "content-type" in headers && exists i :: 0 <= i < |headers["content-type"]| && At(headers["content-type"], FORM, i)
  {
    if "content-type" in headers {
      var ct := headers["content-type"];
      if i :| 0 <= i < |ct| && At(ct, FORM, i) {
        assert ct == ct[..i] + FORM + ct[i + |FORM|..];
      }
      if a, b :| ct == a + FORM + b {
        assert At(ct, FORM, |a|);
      }
    }
  }

  /** A parameter with a name the serializer leaves alone is looked up in the URL's list, followed, for
      a form, by the body's list: the first value under the name is found. */
  lemma {:induction false} QueryThenBody(ps: seq<Pair>, qs: seq<Pair>, headers: map<string, string>, key: seq<Octet>)
    requires key != [] && forall c <- key :: Literal(c)
    ensures QueryValue(Serialized(ps), headers, Serialized(qs), key) ==
            FirstNamed(if SaysForm(headers) then ps + qs else ps, key)
  {
    LookupFaithfulIff(key);
    FormIsFound(headers);
    FirstNamedConcat(ps, qs, key);
  }

  class AsyncWebServerRequest {
    const query: string
    const body: string
    const headers: map<string, string>
    var params: seq<AsyncWebParameter>

    constructor (query: string, body: string, headers: map<string, string>)
      ensures this.query == query && this.body == body && this.headers == headers
      ensures params == [] && Valid()
    {
      this.query, this.body, this.headers, params := query, body, headers, [];
    }

    /** The parameters handed out so far are up to date and named once. */
    ghost predicate Valid()
      reads this
    {
      (forall i :: 0 <= i < |params| ==> QueryValue(query, headers, body, params[i].name) == Some(params[i].value)) &&
      forall i, j :: 0 <= i < j < |params| ==> params[i].name != params[j].name
    }

    method FindQueryValue(name: string) returns (v: Option<string>)
      ensures v == QueryValue(query, headers, body, name)
    {
      v := Scan(query, name);
      if v.Some? {
        return;
      }
      if "content-type" in headers {
        var ct := headers["content-type"];
        var k := FindText(ct, FORM, 0);
        FindTextFirst(ct, FORM, 0);
        if k < |ct| {
          v := Scan(body, name);
        }
      }
    }

    method GetParam(name: string) returns (p: Option<AsyncWebParameter>)
      requires Valid()
      modifies this
      ensures Valid()
      ensures p.Some? <==> QueryValue(query, headers, body, name).Some?
      ensures p.Some? ==> p.value == AsyncWebParameter(name, QueryValue(query, headers, body, name).value)
      ensures params == if p.None? || p.value in old(params) then old(params) else old(params) + [p.value]
    {
      for i := 0 to |params|
        invariant params == old(params)
        invariant forall j :: 0 <= j < i ==> params[j].name != name
      {
        if params[i].name == name {
          return Some(params[i]);
        }
      }
      var v := FindQueryValue(name);
      if v.None? {
        return None;
      }
      p := Some(AsyncWebParameter(name, v.value));
      params := params + [p.value];
    }
  }
}
