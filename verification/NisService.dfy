/** The network information service end to end: what the server's report and history become in the client's
    buffer, when the bytes of one travel to the other. */
module NisService {
  import opened Framing
  import opened CString
  import opened StatusReport
  import opened EventHistory
  import opened NisClient

  lemma {:induction false} DecimalIsShort(n: nat, width: nat)
    requires n < 10000 && width <= 4
    ensures |Decimal(n, width)| <= 4
  {
    assert n / 10 < 1000 && n / 10 / 10 < 100 && n / 10 / 10 / 10 < 10;
    DecimalStep(n, width);
    if !(n < 10 && width <= 1) {
      var w := if width == 0 then 0 else width - 1;
      DecimalStep(n / 10, w);
      if !(n / 10 < 10 && w <= 1) {
        var x := if w == 0 then 0 else w - 1;
        DecimalStep(n / 10 / 10, x);
      }
    }
  }

  lemma DecimalStep(n: nat, width: nat)
    ensures |Decimal(n, width)| ==
            if n < 10 && width <= 1 then 1 else |Decimal(n / 10, if width == 0 then 0 else width - 1)| + 1
  {
  }

  lemma {:induction false} EachRecordCounts(rs: seq<seq<byte>>)
    requires forall r :: r in rs ==> r != []
    ensures |rs| <= |Concat(rs)|
  {
    if rs != [] {
      assert rs[0] in rs && forall r :: r in rs[1..] ==> r in rs;
      EachRecordCounts(rs[1..]);
    }
  }

  /** The report of the status records `rs`: the header and the accepted records. */
  function Report(rs: seq<seq<byte>>): seq<seq<byte>> {
    var acc := Admitted(rs);
    [HeaderLine(|acc|, |Concat(acc)|)] + acc
  }

  /** A client can receive every message of a report. */
  lemma {:induction false} ReportIsReceivable(rs: seq<seq<byte>>)
    requires forall r :: r in rs ==> IsRecord(r) && |r| < 256
    ensures Receivable(Report(rs), 999)
  {
    hide Admitted, HeaderLine, Decimal;
    AdmittedAreSome(rs);
    var acc := Admitted(rs);
    EachRecordCounts(acc);
    HeaderShape(|acc|, |Concat(acc)|);
    HeaderIsShort(|acc|, |Concat(acc)|);
  }

  lemma {:induction false} HeaderIsShort(records: nat, length: nat)
    requires records < 10000 && length < 10000
    ensures |HeaderLine(records, length)| < 100
  {
    hide Decimal;
    DecimalIsShort(1, 3);
    DecimalIsShort(records, 3);
    DecimalIsShort(length, 4);
  }

  /** A header that tells the number of the accepted records and of their bytes, and those records in order. */
  ghost predicate IsReport(t: seq<byte>, rs: seq<seq<byte>>) {
    exists header :: Tells(header, |Admitted(rs)|, Total(Admitted(rs))) && t == header + Concat(Admitted(rs))
  }

  lemma {:induction false} ReportIsReport(rs: seq<seq<byte>>)
    ensures IsReport(Concat(Report(rs)), rs)
  {
    hide HeaderLine, Tells, Admitted;
    var acc := Admitted(rs);
    ConcatLength(acc);
    HeaderTells(|acc|, Total(acc));
    assert Report(rs)[1..] == acc;
  }

  /** The status report: the client's buffer ends up with the first 4095 bytes of one, of the given records. */
  method FetchStatus(server: StatusBuffer, records: seq<seq<byte>>, up: Socket, down: Socket, recvs: seq<RecvAnswer>,
                     client: FetchBuffer, scratch: seq<byte>) returns (stat: int)
    requires server.largebuf.Length == LARGEBUF && client.statbuf.Length == STATBUF && |scratch| == 2
    requires server.largebuf != client.statbuf && up != down
    requires up.outgoing.stream == [] && (forall a :: a in up.outgoing.answers ==> !Breaks(a))
    requires (forall a :: a in down.outgoing.answers ==> !Breaks(a)) && Calm(recvs, false)
    requires forall r :: r in records ==> IsRecord(r) && |r| < 256
    modifies server`statRecs, server.largebuf, up`outgoing, down, client`statlen, client.statbuf
    ensures stat == 1 && client.Contents() == Kept(Concat(Report(records)))
    ensures IsReport(Concat(Report(records)), records)
  {
    hide Reporting, Admitted, HeaderLine, Lines, Concat, Calm, Receivable, Frames, Frame, Breaks, IsRecord, Kept, Text,
         Tells, IsReport;
    ReportIsReport(records);
    FormattedRecords(records);
    ReportOnTheWire(up.outgoing, records);
    ReportIsReceivable(records);
    var rc := OutputStatus(server, records, up);
    down.incoming := Incoming(recvs, up.outgoing.stream);
    assert up.outgoing.stream == Frames(Report(records)) + (Frame([]) + []);
    stat := client.FillBuffer(down, scratch, Report(records), []);
  }

  /** The event history: the client's buffer ends up with the first 4095 bytes of the last fifty chunks of
      the events file, the newest first; and if `events` is what the file consists of, of the last fifty events. */
  method FetchHistory(file: seq<byte>, up: Socket, down: Socket, recvs: seq<RecvAnswer>,
                      client: FetchBuffer, scratch: seq<byte>, ghost events: seq<seq<byte>>) returns (stat: int)
    requires client.statbuf.Length == STATBUF && |scratch| == 2 && up != down
    requires up.outgoing.stream == [] && (forall a :: a in up.outgoing.answers ==> !Breaks(a))
    requires (forall a :: a in down.outgoing.answers ==> !Breaks(a)) && Calm(recvs, false)
    requires 0 !in file
    modifies up`outgoing, down, client`statlen, client.statbuf
    ensures stat == 1 && client.Contents() == Kept(Concat(Backwards(Latest(Chunks(file)))))
    ensures AreEvents(events) && file == Concat(events) ==>
              client.Contents() == Kept(Concat(Backwards(LastFifty(events))))
  {
    hide Chunks, Latest, LastFifty, SendHistory, Concat, Backwards, AreEvents, Calm, Receivable, Frames,
         Frame, Breaks, Kept, Text;
    if AreEvents(events) && file == Concat(events) {
      EventsOnTheWire(up.outgoing, events);
    }
    HistoryOnTheWire(up.outgoing, file);
    var rc := OutputEvents(up, file, NLE);
    down.incoming := Incoming(recvs, up.outgoing.stream);
    ghost var latest := Latest(Chunks(file));
    assert up.outgoing.stream == Frames(latest) + (Frame([]) + []);
    stat := client.FetchEvents(down, scratch, latest, []);
  }
}
