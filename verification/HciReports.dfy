/**
  * LE Advertising Report events from a raw HCI socket (components/esp32_ble_tracker/
  * esp32_ble_tracker.cpp, handle_le_meta_event_) against the controller's encoding of them. What a
  * report's payload parses to is Advertising.Parse.
  */
module HciReports {
  import opened Common

  const SUBEVT_LE_ADVERTISING_REPORT: Byte := 0x02

  /** What one report hands on; the address is least significant byte first. */
  datatype Delivery = Delivery(address: seq<Byte>, rssi: int, payload: seq<Byte>)

  /** A whole report lies at the position. */
  predicate ReportAt(evt: seq<Byte>, pos: nat) {
    pos + 9 <= |evt| && pos + 9 + evt[pos + 8] as int + 1 <= |evt|
  }

  /** The complete reports from a position on, at most n. */
  function ReportsFrom(evt: seq<Byte>, pos: nat, n: nat): seq<Delivery>
    decreases n
  {
    if n == 0 || !ReportAt(evt, pos) then []
    else
      var end := pos + 9 + evt[pos + 8] as int;
      [Delivery(evt[pos + 2..pos + 8], SignedByte(evt[end]), evt[pos + 9..end])] + ReportsFrom(evt, end + 1, n - 1)
  }

  function Delivered(evt: seq<Byte>): seq<Delivery> {
    if |evt| < 2 || evt[0] != SUBEVT_LE_ADVERTISING_REPORT then [] else ReportsFrom(evt, 2, evt[1] as int)
  }

  lemma {:induction false} OneReport(evt: seq<Byte>, pos: nat, n: nat, d: Delivery, end: nat)
    requires n > 0 && ReportAt(evt, pos) && end == pos + 9 + evt[pos + 8] as int
    requires d == Delivery(evt[pos + 2..pos + 8], SignedByte(evt[end]), evt[pos + 9..end])
    ensures ReportsFrom(evt, pos, n) == [d] + ReportsFrom(evt, end + 1, n - 1)
  {
  }

  method HandleLeMetaEvent(evt: seq<Byte>) returns (out: seq<Delivery>)
    ensures out == Delivered(evt)
  {
    out := [];
    if |evt| < 1 {
      return;
    }
    var sub := evt[0];
    if sub != SUBEVT_LE_ADVERTISING_REPORT {
      return;
    }
    if |evt| < 2 {
      return;
    }
    var numReports := evt[1] as int;
    var pos := 2;
    for i := 0 to numReports
      invariant pos >= 2 && out + ReportsFrom(evt, pos, numReports - i) == Delivered(evt)
    {
      if pos + 9 > |evt| {
        return;
      }
      var dataLen := evt[pos + 8] as int;
      if pos + 9 + dataLen + 1 > |evt| {
        return;
      }
      var end := pos + 9 + dataLen;
      var d := Delivery(evt[pos + 2..pos + 8], SignedByte(evt[end]), evt[pos + 9..end]);
      OneReport(evt, pos, numReports - i, d, end);
      ConcatAssociates(out, [d], ReportsFrom(evt, end + 1, numReports - i - 1));
      out := out + [d];
      pos := end + 1;
    }
  }

  // ----- the controller -----

  datatype Report = Report(eventType: Byte, addressType: Byte, address: seq<Byte>, data: seq<Byte>, rssi: Byte)

  ghost predicate Valid(rs: seq<Report>) {
    forall i :: 0 <= i < |rs| ==> |rs[i].address| == 6 && |rs[i].data| < 256
  }

  function ReportBytes(r: Report): (b: seq<Byte>)
    requires |r.address| == 6 && |r.data| < 256
    ensures |b| == 10 + |r.data|
  {
    [r.eventType, r.addressType] + r.address + [|r.data|] + r.data + [r.rssi]
  }

  ghost function Body(rs: seq<Report>): seq<Byte>
    requires Valid(rs)
  {
    if rs == [] then [] else ReportBytes(rs[0]) + Body(rs[1..])
  }

  function Header(n: nat): (h: seq<Byte>)
    requires n < 256
    ensures |h| == 2
  {
    [SUBEVT_LE_ADVERTISING_REPORT, n]
  }

  ghost function Event(rs: seq<Report>): seq<Byte>
    requires |rs| < 256 && Valid(rs)
  {
    Header(|rs|) + Body(rs)
  }

  function Meant(r: Report): Delivery {
    Delivery(r.address, SignedByte(r.rssi), r.data)
  }

  function AllMeant(rs: seq<Report>): seq<Delivery> {
    if rs == [] then [] else [Meant(rs[0])] + AllMeant(rs[1..])
  }

  /** How many reports lie wholly within the first `room` bytes. */
  function Whole(rs: seq<Report>, room: nat): (k: nat)
    ensures k <= |rs|
    decreases |rs|
  {
    if rs == [] || 10 + |rs[0].data| > room then 0 else 1 + Whole(rs[1..], room - 10 - |rs[0].data|)
  }

  lemma {:induction false} BytesOfReport(r: Report)
    requires |r.address| == 6 && |r.data| < 256
    ensures var b := ReportBytes(r);
            b[2..8] == r.address && b[8] == |r.data| && b[9..9 + |r.data|] == r.data && b[9 + |r.data|] == r.rssi
  {
  }

  lemma {:induction false} ReportRead(pre: seq<Byte>, r: Report, rest: seq<Byte>, n: nat)
    requires |r.address| == 6 && |r.data| < 256 && n > 0
    ensures ReportsFrom(pre + ReportBytes(r) + rest, |pre|, n) ==
            [Meant(r)] + ReportsFrom(pre + ReportBytes(r) + rest, |pre + ReportBytes(r)|, n - 1)
  {
    var b := ReportBytes(r);
    var evt := pre + b + rest;
    BytesOfReport(r);
    Inside(pre, b, rest, 2, 8);
    Inside(pre, b, rest, 9, 9 + |r.data|);
    assert evt[|pre| + 8] == b[8] && evt[|pre| + 9 + |r.data|] == b[9 + |r.data|];
  }

  lemma {:induction false} Inside(pre: seq<Byte>, b: seq<Byte>, rest: seq<Byte>, i: nat, j: nat)
    requires i <= j <= |b|
    ensures (pre + b + rest)[|pre| + i..|pre| + j] == b[i..j]
  {
  }

  lemma {:induction false} TakeOfConcat(a: seq<Byte>, b: seq<Byte>, room: nat)
    requires room <= |a + b|
    ensures (a + b)[..room] == if room < |a| then a[..room] else a + b[..room - |a|]
  {
  }

  lemma {:induction false} MeantStep(rs: seq<Report>, k: nat)
    requires k < |rs|
    ensures AllMeant(rs[..k + 1]) == [Meant(rs[0])] + AllMeant(rs[1..][..k])
  {
    assert rs[..k + 1][1..] == rs[1..][..k];
  }

  lemma {:induction false} WholeFirst(pre: seq<Byte>, rs: seq<Report>, part: seq<Byte>, k: nat)
    requires Valid(rs) && k < |rs|
    requires var b := ReportBytes(rs[0]);
             ReportsFrom(pre + b + part, |pre + b|, |rs| - 1) == AllMeant(rs[1..][..k])
    ensures ReportsFrom(pre + (ReportBytes(rs[0]) + part), |pre|, |rs|) == AllMeant(rs[..k + 1])
  {
    ConcatAssociates(pre, ReportBytes(rs[0]), part);
    ReportRead(pre, rs[0], part, |rs|);
    MeantStep(rs, k);
  }

  /** `part` is the start of the encoded reports, cut after `room` bytes. */
  lemma {:induction false} CutBody(pre: seq<Byte>, rs: seq<Report>, room: nat, part: seq<Byte>)
    requires Valid(rs) && room <= |Body(rs)| && part == Body(rs)[..room]
    ensures ReportsFrom(pre + part, |pre|, |rs|) == AllMeant(rs[..Whole(rs, room)])
    decreases |rs|
  {
    if rs != [] {
      var b, tail := ReportBytes(rs[0]), Body(rs[1..]);
      TakeOfConcat(b, tail, room);
      if |b| > room {
      } else {
        CutBody(pre + b, rs[1..], room - |b|, tail[..room - |b|]);
        WholeFirst(pre, rs, tail[..room - |b|], Whole(rs[1..], room - |b|));
      }
    }
  }

  lemma {:induction false} HeaderRead(rest: seq<Byte>, n: nat)
    requires n < 256
    ensures Delivered(Header(n) + rest) == ReportsFrom(Header(n) + rest, |Header(n)|, n)
  {
  }

  /** However an event is cut, exactly the reports that are wholly present are delivered, in order. */
  lemma {:induction false} CutEventDeliversWhole(rs: seq<Report>, cut: nat)
    requires |rs| < 256 && Valid(rs) && 2 <= cut <= |Event(rs)|
    ensures Delivered(Event(rs)[..cut]) == AllMeant(rs[..Whole(rs, cut - 2)])
  {
    var part := Body(rs)[..cut - 2];
    TakeOfConcat(Header(|rs|), Body(rs), cut);
    HeaderRead(part, |rs|);
    CutBody(Header(|rs|), rs, cut - 2, part);
  }

  lemma {:induction false} AllAreWhole(rs: seq<Report>)
    requires Valid(rs)
    ensures Whole(rs, |Body(rs)|) == |rs|
  {
    if rs != [] {
      AllAreWhole(rs[1..]);
    }
  }

  /** A complete event delivers all its reports. */
  lemma {:induction false} EventRoundTrip(rs: seq<Report>)
    requires |rs| < 256 && Valid(rs)
    ensures Delivered(Event(rs)) == AllMeant(rs)
  {
    AllAreWhole(rs);
    HeaderRead(Body(rs), |rs|);
    CutBody(Header(|rs|), rs, |Body(rs)|, Body(rs));
    assert rs[..|rs|] == rs;
  }

  // ----- any event -----

  /** No whole report is left. */
  predicate Short(rest: seq<Byte>) {
    |rest| < 10 || |rest| < 10 + rest[8] as int
  }

  /** The event is an LE Advertising Report that begins with these reports: as many as it announces,
      or all before a report that is not there in full. */
  ghost predicate Holds(evt: seq<Byte>, rs: seq<Report>, rest: seq<Byte>) {
    && 2 <= |evt| && evt[0] == 0x02 && |rs| <= evt[1] as int && Valid(rs)
    && evt[2..] == Body(rs) + rest
    && (|rs| == evt[1] as int || Short(rest))
  }

  lemma {:induction false} ReportsRead(evt: seq<Byte>, pos: nat, n: nat) returns (rs: seq<Report>, rest: seq<Byte>)
    requires pos <= |evt|
    ensures |rs| <= n && Valid(rs) && evt[pos..] == Body(rs) + rest
    ensures |rs| == n || Short(rest)
    ensures ReportsFrom(evt, pos, n) == AllMeant(rs)
    decreases n
  {
    if n == 0 || !ReportAt(evt, pos) {
      rs, rest := [], evt[pos..];
    } else {
      var r, end := ReportCut(evt, pos, n);
      var more;
      more, rest := ReportsRead(evt, end, n - 1);
      rs := [r] + more;
      OneMore(r, more, rest);
    }
  }

  lemma {:induction false} OneMore(r: Report, more: seq<Report>, rest: seq<Byte>)
    requires |r.address| == 6 && |r.data| < 256 && Valid(more)
    ensures Valid([r] + more) && ReportBytes(r) + (Body(more) + rest) == Body([r] + more) + rest
    ensures AllMeant([r] + more) == [Meant(r)] + AllMeant(more)
  {
    assert ([r] + more)[1..] == more;
    ConcatAssociates(ReportBytes(r), Body(more), rest);
  }

  lemma {:induction false} ReportCut(evt: seq<Byte>, pos: nat, n: nat) returns (r: Report, end: nat)
    requires n > 0 && ReportAt(evt, pos)
    ensures end <= |evt| && |r.address| == 6 && |r.data| < 256 && evt[pos..] == ReportBytes(r) + evt[end..]
    ensures ReportsFrom(evt, pos, n) == [Meant(r)] + ReportsFrom(evt, end, n - 1)
  {
    var last := pos + 9 + evt[pos + 8] as int;
    end := last + 1;
    r := Report(evt[pos], evt[pos + 1], evt[pos + 2..pos + 8], evt[pos + 9..last], evt[last]);
    OneReport(evt, pos, n, Meant(r), last);
  }

  /** Whatever bytes arrive: the reports they hold are delivered, in order, and nothing is delivered of
      an event of another kind. */
  lemma {:induction false} AnyEventIsRead(evt: seq<Byte>)
    ensures if 2 <= |evt| && evt[0] == 0x02 then exists rs, rest :: Holds(evt, rs, rest) && Delivered(evt) == AllMeant(rs)
            else Delivered(evt) == []
  {
    if 2 <= |evt| && evt[0] == 0x02 {
      var rs, rest := ReportsRead(evt, 2, evt[1] as int);
      assert Holds(evt, rs, rest);
    }
  }
}
