/** The status report of the network information server, src/apcnis.c. */
module StatusReport {
  import opened Framing
  import opened CString

  const LARGEBUF := 4096
  const NEWLINE: byte := 10

  function Concat(ms: seq<seq<byte>>): seq<byte> { if ms == [] then [] else ms[0] + Concat(ms[1..]) }

  lemma {:induction false} ConcatAppend(ms: seq<seq<byte>>, m: seq<byte>)
    ensures Concat(ms + [m]) == Concat(ms) + m
  {
    if ms == [] {
      assert ([m])[1..] == [];
    } else {
      ConcatAppend(ms[1..], m);
      assert (ms + [m])[1..] == ms[1..] + [m];
    }
  }

  /** `n` in decimal, padded with zeros to `width` digits: "%0*d". */
  function Decimal(n: nat, width: nat): seq<byte>
    decreases n, width
  {
    if n < 10 && width <= 1 then [48 + n]
    else Decimal(n / 10, if width == 0 then 0 else width - 1) + [48 + n % 10]
  }

  function Value(digits: seq<byte>): int {
    if digits == [] then 0 else Value(digits[..|digits| - 1]) * 10 + (digits[|digits| - 1] as int - 48)
  }

  /** The number can be read back, and is made of digits only. */
  lemma {:induction false} DecimalReadsBack(n: nat, width: nat)
    ensures Value(Decimal(n, width)) == n && |Decimal(n, width)| >= width && |Decimal(n, width)| >= 1
    ensures forall d :: d in Decimal(n, width) ==> 48 <= d <= 57
    decreases n, width
  {
    if n < 10 && width <= 1 {
    } else {
      var w := if width == 0 then 0 else width - 1;
      DecimalReadsBack(n / 10, w);
      var s := Decimal(n, width);
      assert s[..|s| - 1] == Decimal(n / 10, w);
    }
  }

  /** `s` is "%0*d" of `n`: decimal digits that give back the number, no fewer than `width`, and padded only as far
      as that. */
  predicate Padded(s: seq<byte>, n: nat, width: nat) {
    && s != [] && (forall d :: d in s ==> 48 <= d <= 57) && Value(s) == n
    && |s| >= width && (|s| > width && |s| > 1 ==> s[0] != 48)
  }

  lemma {:induction false} DecimalIsPadded(n: nat, width: nat)
    ensures Padded(Decimal(n, width), n, width)
    decreases n, width
  {
    DecimalReadsBack(n, width);
    if !(n < 10 && width <= 1) {
      var w := if width == 0 then 0 else width - 1;
      DecimalIsPadded(n / 10, w);
      DecimalReadsBack(n / 10, w);
      assert Decimal(n, width)[0] == Decimal(n / 10, w)[0];
      if |Decimal(n, width)| > width && |Decimal(n / 10, w)| == 1 { SingleDigit(Decimal(n / 10, w)); }
    }
  }

  lemma SingleDigit(s: seq<byte>)
    requires |s| == 1
    ensures Value(s) == s[0] as int - 48
  {
    assert s[..0] == [];
  }

  /** The bytes of `ms` together. */
  function Total(ms: seq<seq<byte>>): nat { if ms == [] then 0 else |ms[0]| + Total(ms[1..]) }

  lemma {:induction false} ConcatLength(ms: seq<seq<byte>>)
    ensures |Concat(ms)| == Total(ms)
  {
    if ms != [] { ConcatLength(ms[1..]); }
  }

  /** A line "APC      : " with three numbers between commas: a one, a count and a size. */
  ghost predicate Tells(line: seq<byte>, count: nat, size: nat) {
    exists a, b, d :: Padded(a, 1, 3) && Padded(b, count, 3) && Padded(d, size, 4) &&
                      line == [65, 80, 67, 32, 32, 32, 32, 32, 32, 58, 32] + a + [44] + b + [44] + d + [10]
  }

  lemma {:induction false} HeaderTells(records: nat, length: nat)
    ensures Tells(HeaderLine(records, length), records, length)
  {
    hide Decimal, Padded;
    DecimalIsPadded(1, 3);
    DecimalIsPadded(records, 3);
    DecimalIsPadded(length, 4);
  }

  /** "APC      : %03d,%03d,%04d\n" with the revision, the number of records and the length of their text. */
  function HeaderLine(records: nat, length: nat): seq<byte> {
    [65, 80, 67, 32, 32, 32, 32, 32, 32, 58, 32] + Decimal(1, 3) + [44] + Decimal(records, 3) + [44] +
    Decimal(length, 4) + [NEWLINE]
  }

  // Cutting the buffer into lines

  /** The position behind the first newline; 0 if there is none. */
  function LineEnd(t: seq<byte>): (k: nat)
    ensures k <= |t|
    ensures k > 0 ==> t[k - 1] == NEWLINE
    ensures forall i :: 0 <= i < (if k == 0 then |t| else k - 1) ==> t[i] != NEWLINE
  {
    if t == [] then 0
    else if t[0] == NEWLINE then 1
    else
      var k := LineEnd(t[1..]);
      if k == 0 then 0 else k + 1
  }

  /** The complete lines of a text; what follows the last newline is dropped. */
  function Lines(t: seq<byte>): seq<seq<byte>> {
    var k := LineEnd(t);
    if k == 0 then [] else [t[..k]] + Lines(t[k..])
  }

  /** A line, as every status record is one: a newline at the end and nowhere else, and no NUL. */
  predicate IsRecord(r: seq<byte>) { IsLine(r) && 0 !in r }

  predicate IsLine(r: seq<byte>) {
    r != [] && r[|r| - 1] == NEWLINE && NEWLINE !in r[..|r| - 1]
  }

  lemma {:induction false} FirstLine(t: seq<byte>, k: nat)
    requires 0 < k <= |t| && t[k - 1] == NEWLINE && NEWLINE !in t[..k - 1]
    ensures Lines(t) == [t[..k]] + Lines(t[k..])
  {
    assert forall i :: 0 <= i < k - 1 ==> t[i] == t[..k - 1][i];
    assert LineEnd(t) == k;
  }

  lemma {:induction false} NoLine(t: seq<byte>)
    requires NEWLINE !in t
    ensures Lines(t) == []
  {
    assert LineEnd(t) == 0;
  }

  lemma {:induction false} RecordFirst(r: seq<byte>, more: seq<byte>)
    requires IsRecord(r)
    ensures Lines(r + more) == [r] + Lines(more)
  {
    hide LineEnd, Lines;
    var t := r + more;
    assert t[..|r| - 1] == r[..|r| - 1] && t[..|r|] == r && t[|r|..] == more;
    FirstLine(t, |r|);
  }

  lemma {:induction false} LinesOfRecords(rs: seq<seq<byte>>)
    requires forall r :: r in rs ==> IsRecord(r)
    ensures Lines(Concat(rs)) == rs
  {
    hide Lines, IsRecord;
    if rs == [] { NoLine([]); }
    if rs != [] {
      var t, r := Concat(rs), rs[0];
      assert r in rs && forall x :: x in rs[1..] ==> x in rs;
      assert t == r + Concat(rs[1..]);
      RecordFirst(r, Concat(rs[1..]));
      LinesOfRecords(rs[1..]);
    }
  }

  /** A record is accepted when the text stays below the size of the buffer less one. */
  predicate Fits(text: seq<byte>, r: seq<byte>) { |text| + |r| < LARGEBUF - 1 }

  function Admitted(rs: seq<seq<byte>>): seq<seq<byte>> {
    if rs == [] then []
    else
      var before, r := Admitted(rs[..|rs| - 1]), rs[|rs| - 1];
      if Fits(Concat(before), r) then before + [r] else before
  }

  lemma {:induction false} AdmittedAreSome(rs: seq<seq<byte>>)
    ensures forall r :: r in Admitted(rs) ==> r in rs
    ensures |Concat(Admitted(rs))| < 4095
  {
    if rs != [] {
      assert forall r :: r in rs[..|rs| - 1] ==> r in rs;
      AdmittedAreSome(rs[..|rs| - 1]);
      ConcatAppend(Admitted(rs[..|rs| - 1]), rs[|rs| - 1]);
    }
  }

  /** Every record counts: it is accepted exactly if it and the accepted ones before it have less than 4095 bytes. */
  lemma {:induction false} AdmittedIfRoom(rs: seq<seq<byte>>, k: nat)
    requires k < |rs|
    ensures var before := Admitted(rs[..k]);
            && Admitted(rs[..k + 1]) == before + (if Total(before) + |rs[k]| < 4095 then [rs[k]] else [])
            && Admitted(rs[..k + 1]) <= Admitted(rs)
  {
    ConcatLength(Admitted(rs[..k]));
    assert rs[..k + 1][..k] == rs[..k];
    if k + 1 == |rs| {
      assert rs[..k + 1] == rs;
    } else {
      var most := rs[..|rs| - 1];
      assert most[..k + 1] == rs[..k + 1] && most[..k] == rs[..k];
      AdmittedIfRoom(most, k);
    }
  }

  /** Nothing is left out of what has room. */
  lemma {:induction false} AllAdmitted(rs: seq<seq<byte>>)
    requires Total(rs) < 4095
    ensures Admitted(rs) == rs
  {
    ConcatLength(rs);
    if rs != [] {
      var n := |rs| - 1;
      assert rs == rs[..n] + [rs[n]];
      ConcatAppend(rs[..n], rs[n]);
      ConcatLength(rs[..n]);
      AllAdmitted(rs[..n]);
    }
  }

  /** Lines are sent until a send fails. */
  function SendLines(out: Outgoing, ms: seq<seq<byte>>): Outgoing
    decreases |ms|
  {
    if ms == [] then out
    else
      var s := Sending(out, ms[0]);
      if s.rc <= 0 then s.out else SendLines(s.out, ms[1..])
  }

  /** status_close: the header, the lines, and an empty message as end mark, unless the header failed. */
  function Reporting(out: Outgoing, header: seq<byte>, lines: seq<seq<byte>>): Sent {
    var h := Sending(out, header);
    if h.rc <= 0 then Sent(-1, h.out)
    else
      var end := Sending(SendLines(h.out, lines), []);
      Sent(if end.rc < 0 then -1 else 0, end.out)
  }

  lemma {:induction false} SendsLines(out: Outgoing, ms: seq<seq<byte>>)
    requires forall a :: a in out.answers ==> !Breaks(a)
    requires forall m :: m in ms ==> m != []
    ensures SendLines(out, ms).stream == out.stream + Frames(ms)
    ensures forall a :: a in SendLines(out, ms).answers ==> !Breaks(a)
    decreases |ms|
  {
    hide Sending, Frame, Breaks;
    if ms != [] {
      assert ms[0] in ms && forall m :: m in ms[1..] ==> m in ms;
      SendsFrame(out, ms[0]);
      SendsLines(Sending(out, ms[0]).out, ms[1..]);
    }
  }

  /** What a client finds on the wire: for records that are lines, a header that tells the number of the line
      messages and of their bytes, each accepted record as one such message, and the end mark. */
  lemma {:induction false} ReportOnTheWire(out: Outgoing, rs: seq<seq<byte>>)
    requires forall a :: a in out.answers ==> !Breaks(a)
    requires forall r :: r in rs ==> IsRecord(r)
    ensures var acc := Admitted(rs);
            var header := HeaderLine(|acc|, |Concat(acc)|);
            var s := Reporting(out, header, Lines(Concat(acc)));
            && s.rc == 0 && s.out.stream == out.stream + Frames([header] + acc) + Frame([])
            && Tells(header, |acc|, Total(acc))
  {
    hide Sending, Frame, Breaks, Admitted, HeaderLine, Lines, IsRecord, Decimal, Tells;
    AdmittedAreSome(rs);
    ConcatLength(Admitted(rs));
    HeaderTells(|Admitted(rs)|, Total(Admitted(rs)));
    var acc := Admitted(rs);
    var header := HeaderLine(|acc|, |Concat(acc)|);
    LinesOfRecords(acc);
    assert header != [] by { HeaderShape(|acc|, |Concat(acc)|); }
    assert forall r :: r in acc ==> r != [] by { RecordsAreNotEmpty(acc); }
    SendsFrame(out, header);
    SendsLines(Sending(out, header).out, acc);
    SendsFrame(SendLines(Sending(out, header).out, acc), []);
    assert ([header] + acc)[1..] == acc;
  }

  lemma RecordsAreNotEmpty(rs: seq<seq<byte>>)
    requires forall r :: r in rs ==> IsRecord(r)
    ensures forall r :: r in rs ==> r != []
  {
  }

  lemma {:induction false} HeaderShape(records: nat, length: nat)
    ensures IsRecord(HeaderLine(records, length)) && HeaderLine(records, length) != []
  {
    DecimalReadsBack(1, 3);
    DecimalReadsBack(records, 3);
    DecimalReadsBack(length, 4);
  }

  // The server

  /** largebuf and stat_recs. */
  class StatusBuffer {
    const largebuf: array<byte>
    var statRecs: nat

    ghost predicate Valid()
      reads this, largebuf
    {
      largebuf.Length == LARGEBUF && 0 in largebuf[..]
    }

    ghost function Contents(): seq<byte>
      reads this, largebuf
    {
      Text(largebuf[..])
    }

    constructor ()
      ensures Valid() && fresh(largebuf)
    {
      largebuf := new byte[LARGEBUF](_ => 0);
      statRecs := 0;
      new;
      assert largebuf[0] in largebuf[..];
    }

    method StatusOpen()
      requires largebuf.Length == LARGEBUF
      modifies `statRecs, largebuf
      ensures Valid() && Contents() == [] && statRecs == 0
    {
      largebuf[0] := 0;
      statRecs := 0;
      assert largebuf[0] in largebuf[..];
    }

    /** `buf` holds the formatted record. */
    method StatusWrite(buf: array<byte>) returns (overflow: bool)
      requires Valid() && buf != largebuf && 0 in buf[..]
      modifies `statRecs, largebuf
      ensures Valid()
      ensures overflow == !Fits(old(Contents()), Text(buf[..]))
      ensures Contents() == if overflow then old(Contents()) else old(Contents()) + Text(buf[..])
      ensures statRecs == old(statRecs) + if overflow then 0 else 1
    {
      var have := StrLen(largebuf);
      var more := StrLen(buf);
      overflow := have + more >= LARGEBUF - 1;
      if !overflow {
        TextIsPrefix(largebuf[..]);
        TextIsPrefix(buf[..]);
        ghost var text, add := Contents(), Text(buf[..]);
        ghost var rest := largebuf[have + more + 1..];
        var cnt := StrlCat(largebuf, buf, LARGEBUF);
        assert add[..Min(|add|, LARGEBUF - 1 - |text|)] == add;
        assert largebuf[..] == (text + add) + [0] + rest;
        TextOfParts(text + add, rest);
        assert largebuf[have + more] in largebuf[..];
        statRecs := statRecs + 1;
      }
    }

    /** Sends the header and then each line, and the end mark even when a line could not be sent. */
    method StatusClose(sock: Socket) returns (rc: int)
      requires Valid()
      modifies sock`outgoing
      ensures Sent(rc, sock.outgoing) ==
              Reporting(old(sock.outgoing), HeaderLine(statRecs, |Contents()|), Lines(Contents()))
    {
      hide Sending, HeaderLine, Lines;
      var i := StrLen(largebuf);
      TextIsPrefix(largebuf[..]);
      ghost var text := Contents();
      var sent := sock.NetSend(HeaderLine(statRecs, i));
      if sent <= 0 { return -1; }
      ghost var goal := SendLines(sock.outgoing, Lines(text));
      var sptr, eptr := 0, 0;
      ghost var stopped := false;
      while i > 0
        invariant !stopped
        invariant 0 <= sptr <= eptr && eptr + i == |text|
        invariant NEWLINE !in text[sptr..eptr]
        invariant goal == SendLines(sock.outgoing, Lines(text[sptr..]))
      {
        eptr := eptr + 1;
        if largebuf[eptr - 1] == NEWLINE {
          FirstLine(text[sptr..], eptr - sptr);
          assert largebuf[sptr..eptr] == text[sptr..][..eptr - sptr];
          assert text[sptr..][eptr - sptr..] == text[eptr..];
          sent := sock.NetSend(largebuf[sptr..eptr]);
          if sent <= 0 {
            stopped := true;
            break;
          }
          sptr := eptr;
        }
        i := i - 1;
      }
      if !stopped {
        assert text[sptr..] == text[sptr..eptr];
        NoLine(text[sptr..]);
      }
      assert sock.outgoing == goal;
      sent := sock.NetSend([]);
      rc := if sent < 0 then -1 else 0;
    }
  }

  const MAXSTRING := 256

  /** What avsnprintf leaves of a record in a buffer of MAXSTRING bytes. */
  function Formatted(record: seq<byte>): seq<byte> {
    var t := Text(record);
    t[..Min(|t|, MAXSTRING - 1)]
  }

  function FormattedAll(records: seq<seq<byte>>): seq<seq<byte>> {
    if records == [] then []
    else FormattedAll(records[..|records| - 1]) + [Formatted(records[|records| - 1])]
  }

  lemma FormattedRecord(r: seq<byte>)
    requires IsRecord(r) && |r| < 256
    ensures Formatted(r) == r
  {
    hide Text;
    TextOfParts(r, []);
  }

  lemma {:induction false} FormattedRecords(records: seq<seq<byte>>)
    requires forall r :: r in records ==> IsRecord(r) && |r| < 256
    ensures FormattedAll(records) == records
  {
    hide Formatted, IsRecord, Text;
    if records != [] {
      var r := records[|records| - 1];
      assert r in records && forall x :: x in records[..|records| - 1] ==> x in records;
      FormattedRecord(r);
      FormattedRecords(records[..|records| - 1]);
      assert records == records[..|records| - 1] + [r];
    }
  }

  method Format(record: seq<byte>, buf: array<byte>)
    requires buf.Length == MAXSTRING
    modifies buf
    ensures 0 in buf[..] && Text(buf[..]) == Formatted(record)
  {
    hide Text;
    TextIsPrefix(record);
    ghost var t := Formatted(record);
    var n := 0;
    while n < MAXSTRING - 1 && n < |record| && record[n] != 0
      invariant n <= |t| && buf[..n] == t[..n]
      decreases MAXSTRING - n
    {
      buf[n] := record[n];
      n := n + 1;
    }
    if n < MAXSTRING - 1 { TextStops(record, n); }
    buf[n] := 0;
    assert buf[n] in buf[..];
    assert buf[..n] == t;
    assert buf[..] == buf[..n] + [0] + buf[n + 1..];
    TextOfParts(t, buf[n + 1..]);
  }

  /** output_status with the three functions of the server: every record is formatted and written, and the
      report is sent. */
  method OutputStatus(b: StatusBuffer, records: seq<seq<byte>>, sock: Socket) returns (rc: int)
    requires b.largebuf.Length == LARGEBUF
    modifies b`statRecs, b.largebuf, sock`outgoing
    ensures b.Valid() && b.Contents() == Concat(Admitted(FormattedAll(records)))
    ensures var acc := Admitted(FormattedAll(records));
            Sent(rc, sock.outgoing) ==
            Reporting(old(sock.outgoing), HeaderLine(|acc|, |Concat(acc)|), Lines(Concat(acc)))
  {
    hide Reporting, HeaderLine, Lines, Formatted, Text;
    b.StatusOpen();
    var k := 0;
    while k < |records|
      invariant 0 <= k <= |records| && b.Valid()
      invariant b.Contents() == Concat(Admitted(FormattedAll(records[..k])))
      invariant b.statRecs == |Admitted(FormattedAll(records[..k]))|
      invariant sock.outgoing == old(sock.outgoing)
    {
      var buf := new byte[MAXSTRING];
      Format(records[k], buf);
      var overflow := b.StatusWrite(buf);
      assert records[..k + 1][..k] == records[..k];
      var all := FormattedAll(records[..k]);
      assert FormattedAll(records[..k + 1]) == all + [Formatted(records[k])];
      assert (all + [Formatted(records[k])])[..|all|] == all;
      ConcatAppend(Admitted(all), Formatted(records[k]));
      k := k + 1;
    }
    assert records[..k] == records;
    rc := b.StatusClose(sock);
  }
}
