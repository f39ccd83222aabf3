/** Searching and cutting character strings, and decimal numerals, shared by the web-server models. */
module Strings {
  /** First position of c at or after i, or |s|. */
  function Find(s: string, c: char, i: nat): (k: nat)
    requires i <= |s|
    ensures i <= k <= |s|
    ensures k < |s| ==> s[k] == c
    ensures forall j :: i <= j < k ==> s[j] != c
    decreases |s| - i
  {
    if i == |s| || s[i] == c then i else Find(s, c, i + 1)
  }

  lemma {:induction false} FindIs(s: string, c: char, i: nat, k: nat)
    requires i <= k <= |s| && (k < |s| ==> s[k] == c)
    requires forall j :: i <= j < k ==> s[j] != c
    ensures Find(s, c, i) == k
  {
  }

  lemma {:induction false} FindInSlice(s: string, c: char, i: nat, end: nat)
    requires i <= end <= |s|
    ensures Find(s[i..end], c, 0) == if Find(s, c, i) < end then Find(s, c, i) - i else end - i
  {
    var t, k := s[i..end], Find(s, c, i);
    forall j | 0 <= j < |t| ensures t[j] == s[i + j] {
    }
    FindIs(t, c, 0, if k < end then k - i else end - i);
  }

  predicate At(s: string, t: string, i: nat) {
    i + |t| <= |s| && forall k :: 0 <= k < |t| ==> s[i + k] == t[k]
  }

  /** First occurrence of t at or after i, or |s|. */
  function FindText(s: string, t: string, i: nat): (k: nat)
    requires i <= |s| && t != ""
    ensures i <= k <= |s|
    ensures k < |s| ==> k + |t| <= |s|
    decreases |s| - i
  {
    if i == |s| || At(s, t, i) then i else FindText(s, t, i + 1)
  }

  lemma {:induction false} FindTextFirst(s: string, t: string, i: nat)
    requires i <= |s| && t != ""
    ensures var k := FindText(s, t, i); (k < |s| ==> At(s, t, k)) && forall j :: i <= j < k ==> !At(s, t, j)
    decreases |s| - i
  {
    if i < |s| && !At(s, t, i) {
      FindTextFirst(s, t, i + 1);
    }
  }

  lemma {:induction false} FindTextIs(s: string, t: string, i: nat, k: nat)
    requires t != "" && i <= k <= |s| && (k < |s| ==> At(s, t, k))
    requires forall j :: i <= j < k ==> !At(s, t, j)
    ensures FindText(s, t, i) == k
  {
    FindTextFirst(s, t, i);
  }

  /** The pieces of s between occurrences of c. */
  function Pieces(s: string, c: char): (p: seq<string>)
    ensures |p| > 0
    decreases |s|
  {
    var k := Find(s, c, 0);
    if k == |s| then [s] else [s[..k]] + Pieces(s[k + 1..], c)
  }

  /** The pieces with the separator put back between them. */
  function Rejoined(pieces: seq<string>, c: char): string
    requires pieces != []
  {
    if |pieces| == 1 then pieces[0] else pieces[0] + [c] + Rejoined(pieces[1..], c)
  }

  predicate Splits(pieces: seq<string>, c: char, s: string) {
    pieces != [] && Rejoined(pieces, c) == s && forall p <- pieces :: c !in p
  }

  /** There is one way to cut a string at a separator, and Pieces is it. */
  lemma {:induction false} PiecesIff(s: string, c: char, pieces: seq<string>)
    ensures Splits(pieces, c, s) <==> pieces == Pieces(s, c)
    decreases |s|, |pieces|
  {
    var k := Find(s, c, 0);
    if k < |s| {
      PiecesIff(s[k + 1..], c, Pieces(s[k + 1..], c));
      assert s == s[..k] + [c] + s[k + 1..];
    }
    assert Splits(Pieces(s, c), c, s);
    if Splits(pieces, c, s) {
      FirstPiece(s, c, pieces);
      if |pieces| > 1 {
        PiecesIff(s[k + 1..], c, pieces[1..]);
        assert pieces == [pieces[0]] + pieces[1..];
      }
    }
  }

  lemma {:induction false} FirstPiece(s: string, c: char, pieces: seq<string>)
    requires Splits(pieces, c, s)
    ensures var k := Find(s, c, 0);
            && pieces[0] == s[..k] && (|pieces| == 1 <==> k == |s|)
            && (|pieces| > 1 ==> Splits(pieces[1..], c, s[k + 1..]))
  {
    var p := pieces[0];
    assert forall j :: 0 <= j < |p| ==> s[j] == p[j] && p[j] in p;
    FindIs(s, c, 0, |p|);
  }

  predicate Digits(s: string) {
    forall i :: 0 <= i < |s| ==> '0' <= s[i] <= '9'
  }

  function DecimalValue(s: string): nat
    requires Digits(s)
  {
    if s == "" then 0 else 10 * DecimalValue(s[..|s| - 1]) + (s[|s| - 1] as int - '0' as int)
  }

  /** Decimal notation without leading zeros. */
  function Decimal(n: nat): (s: string)
    ensures |s| > 0 && Digits(s)
  {
    var digit := [(n % 10 + '0' as int) as char];
    if n < 10 then digit else Decimal(n / 10) + digit
  }

  lemma {:induction false} DecimalRoundTrip(n: nat)
    ensures DecimalValue(Decimal(n)) == n
  {
    var s := Decimal(n);
    var digit := [(n % 10 + '0' as int) as char];
    if n < 10 {
      assert s[..0] == "";
    } else {
      DecimalRoundTrip(n / 10);
      assert s == Decimal(n / 10) + digit;
      assert s[..|s| - 1] == Decimal(n / 10);
    }
  }
}
