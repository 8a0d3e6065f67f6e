/** The events file, src/lib/apcevents.c: sending its last lines to a client, and keeping it short. */
module EventHistory {
  import opened Framing
  import opened CString
  import opened StatusReport
  import opened Options

  /** NLE, the slots of the ring */
  const NLE := 50

  /** How much fgets reads into a buffer of MAXSTRING bytes. */
  function ChunkLength(file: seq<byte>): (n: nat)
    ensures n <= |file| && n < MAXSTRING && (file != [] ==> n > 0)
  {
    var k := LineEnd(file);
    Min(if k == 0 then |file| else k, MAXSTRING - 1)
  }

  /** The chunks in which fgets reads a file. */
  function Chunks(file: seq<byte>): seq<seq<byte>> {
    if file == [] then []
    else
      var n := ChunkLength(file);
      [file[..n]] + Chunks(file[n..])
  }

  /** Nothing of the file is lost or changed by reading it in chunks, */
  lemma {:induction false} ChunksMakeFile(file: seq<byte>)
    ensures Concat(Chunks(file)) == file
    ensures forall c :: c in Chunks(file) ==> 0 < |c| < MAXSTRING
  {
    hide ChunkLength;
    if file != [] {
      var n := ChunkLength(file);
      ChunksMakeFile(file[n..]);
      assert file == file[..n] + file[n..];
      assert Chunks(file)[1..] == Chunks(file[n..]);
    }
  }

  /** and nothing is added. */
  lemma {:induction false} ChunksAddNothing(file: seq<byte>, b: byte)
    requires b !in file
    ensures forall c :: c in Chunks(file) ==> b !in c
  {
    hide ChunkLength;
    if file != [] {
      var n := ChunkLength(file);
      assert b !in file[n..] && b !in file[..n];
      ChunksAddNothing(file[n..], b);
    }
  }

  /** Lines, of which a long one is in pieces: a newline stands only at the end of a piece, no piece is empty or has
      more than 255 bytes, and each but the last ends with a newline or has exactly 255 bytes. */
  ghost predicate CutIntoLines(cs: seq<seq<byte>>) {
    && (forall i :: 0 <= i < |cs| ==> 0 < |cs[i]| <= 255 && 10 !in cs[i][..|cs[i]| - 1])
    && (forall i :: 0 <= i < |cs| - 1 ==> cs[i][|cs[i]| - 1] == 10 || |cs[i]| == 255)
  }

  /** One more piece in front. */
  lemma {:induction false} CutBefore(c: seq<byte>, cs: seq<seq<byte>>)
    requires CutIntoLines(cs) && 0 < |c| <= 255 && 10 !in c[..|c| - 1]
    requires cs == [] || c[|c| - 1] == 10 || |c| == 255
    ensures CutIntoLines([c] + cs)
  {
    var all := [c] + cs;
    forall i | 0 <= i < |all|
      ensures 0 < |all[i]| <= 255 && 10 !in all[i][..|all[i]| - 1]
      ensures i < |all| - 1 ==> all[i][|all[i]| - 1] == 10 || |all[i]| == 255
    {
      if i > 0 { assert all[i] == cs[i - 1]; }
    }
  }

  lemma {:induction false} CutBehind(cs: seq<seq<byte>>)
    requires CutIntoLines(cs) && cs != []
    ensures CutIntoLines(cs[1..])
  {
    var rest := cs[1..];
    assert forall i :: 0 <= i < |rest| ==> rest[i] == cs[i + 1];
  }

  lemma {:induction false} FirstChunk(file: seq<byte>)
    requires file != []
    ensures var c := file[..ChunkLength(file)];
            && 0 < |c| <= 255 && 10 !in c[..|c| - 1]
            && (file[|c|..] == [] || c[|c| - 1] == 10 || |c| == 255)
  {
    var k, c := LineEnd(file), file[..ChunkLength(file)];
    assert forall i :: 0 <= i < |c| - 1 ==> c[..|c| - 1][i] == file[i];
  }

  /** The chunks of any file are lines, */
  lemma {:induction false} ChunksAreLines(file: seq<byte>)
    ensures CutIntoLines(Chunks(file))
  {
    hide ChunkLength, CutIntoLines;
    if file == [] {
      NothingIsCut();
    } else {
      var n := ChunkLength(file);
      FirstChunk(file);
      ChunksAreLines(file[n..]);
      assert file[n..] == [] ==> Chunks(file[n..]) == [];
      CutBefore(file[..n], Chunks(file[n..]));
    }
  }

  lemma NothingIsCut()
    ensures CutIntoLines([])
  {
  }

  /** What fgets finds in a file that starts with such a piece. */
  lemma {:induction false} ChunkFound(c: seq<byte>, more: seq<byte>)
    requires 0 < |c| <= 255 && 10 !in c[..|c| - 1]
    requires more == [] || c[|c| - 1] == 10 || |c| == 255
    ensures ChunkLength(c + more) == |c|
  {
    var file := c + more;
    var k := LineEnd(file);
    assert forall i :: 0 <= i < |c| - 1 ==> file[i] == c[..|c| - 1][i];
    assert file[|c| - 1] == c[|c| - 1];
  }

  /** and it is the only way to cut the file into lines: a file made of events no longer than 255 bytes is cut into
      just these. */
  lemma {:induction false} ChunksOfLines(cs: seq<seq<byte>>)
    requires CutIntoLines(cs)
    ensures Chunks(Concat(cs)) == cs
  {
    hide ChunkLength;
    if cs != [] {
      var c, more := cs[0], Concat(cs[1..]);
      CutBehind(cs);
      ChunksOfLines(cs[1..]);
      assert cs[1..] == [] ==> more == [];
      ChunkFound(c, more);
      var file := c + more;
      assert file[..|c|] == c && file[|c|..] == more;
      assert cs == [c] + cs[1..];
    }
  }

  /** Events as they are written, none too long for a buffer of 256 bytes. */
  ghost predicate AreEvents(rs: seq<seq<byte>>) { forall r :: r in rs ==> IsRecord(r) && |r| < 256 }

  lemma {:induction false} EventsAreCut(rs: seq<seq<byte>>)
    requires AreEvents(rs)
    ensures CutIntoLines(rs) && 0 !in Concat(rs)
  {
    assert forall i :: 0 <= i < |rs| ==> rs[i] in rs;
    if rs != [] {
      EventsAreCut(rs[1..]);
    }
  }

  /** The last fifty, or all. */
  function LastFifty(rs: seq<seq<byte>>): seq<seq<byte>> { rs[if |rs| > 50 then |rs| - 50 else 0..] }

  /** The last chunks, as many as the ring holds. */
  function Latest(cs: seq<seq<byte>>): seq<seq<byte>> {
    if |cs| > NLE then cs[|cs| - NLE..] else cs
  }

  /** The strings in the slots are sent until a send fails; an empty string counts as a failure. */
  function SendEvents(out: Outgoing, cs: seq<seq<byte>>): (s: Sent)
    ensures s.rc == 0 || s.rc == -1
    decreases |cs|
  {
    if cs == [] then Sent(0, out)
    else
      var s := Sending(out, Text(cs[0]));
      if s.rc <= 0 then Sent(-1, s.out) else SendEvents(s.out, cs[1..])
  }

  /** output_events: the latest chunks and, in any case, the end mark. Without memory for the slots it is only
      the end mark. */
  function SendHistory(out: Outgoing, cs: seq<seq<byte>>, memory: bool): Sent {
    var events := if memory then SendEvents(out, cs) else Sent(-1, out);
    var end := Sending(events.out, []);
    Sent(if events.rc < 0 || end.rc < 0 then -1 else 0, end.out)
  }

  /** The slot in which chunk `k` is read. */
  function Slot(k: nat): (i: nat)
    ensures i < NLE
  {
    k % NLE
  }

  /** After `n` chunks the ring holds the latest of them. */
  ghost predicate Ring(le: seq<seq<byte>>, cs: seq<seq<byte>>, n: nat) {
    |le| == NLE && n <= |cs| && forall k {:trigger cs[k]} :: 0 <= k < n && n - NLE <= k ==> le[Slot(k)] == cs[k]
  }

  lemma SlotsDiffer(k: nat, n: nat)
    requires k < n < k + NLE
    ensures Slot(k) != Slot(n)
  {
  }

  lemma SlotAdvances(k: nat)
    ensures Slot(k + 1) == if Slot(k) + 1 >= NLE then 0 else Slot(k) + 1
  {
  }

  lemma {:induction false} RingAdvances(le: seq<seq<byte>>, cs: seq<seq<byte>>, n: nat)
    requires Ring(le, cs, n) && n < |cs|
    ensures Ring(le[Slot(n) := cs[n]], cs, n + 1)
  {
    hide Slot;
    var now := le[Slot(n) := cs[n]];
    forall k {:trigger cs[k]} | 0 <= k < n + 1 && n + 1 - NLE <= k
      ensures now[Slot(k)] == cs[k]
    {
      if k < n { SlotsDiffer(k, n); }
    }
  }

  lemma ChunksStep(cs: seq<seq<byte>>, n: nat, file: seq<byte>)
    requires n <= |cs| && cs[n..] == Chunks(file) && file != []
    ensures var k := ChunkLength(file); n < |cs| && cs[n] == file[..k] && cs[n + 1..] == Chunks(file[k..])
  {
    assert cs[n..][1..] == cs[n + 1..] && cs[n..][0] == cs[n];
  }

  /** `slots` is how many of the slots can be allocated. */
  method OutputEvents(sock: Socket, file: seq<byte>, slots: nat) returns (stat: int)
    modifies sock`outgoing
    ensures Sent(stat, sock.outgoing) == SendHistory(old(sock.outgoing), Latest(Chunks(file)), slots >= NLE)
  {
    hide Sending, Text, Chunks, Ring, SendEvents, Latest;
    if slots < NLE {
      stat := -1;
    } else {
      var le, i, nrec := ReadEvents(file);
      stat := SendSlots(sock, le, i, nrec, Chunks(file));
    }
    var end := sock.NetSend([]);
    if end < 0 { stat := -1; }
  }

  /** The first half of output_events: the file is read into the ring. */
  method ReadEvents(file: seq<byte>) returns (le: array<seq<byte>>, i: nat, nrec: nat)
    ensures fresh(le) && le.Length == NLE && Ring(le[..], Chunks(file), nrec)
    ensures nrec == |Chunks(file)| && i == Slot(nrec)
  {
    hide Chunks, Ring, Slot;
    le := new seq<byte>[NLE];
    i, nrec := 0, 0;
    var at := 0;
    ghost var cs := Chunks(file);
    EmptyRing(le[..], cs);
    assert cs[0..] == Chunks(file[0..]) by { assert file[0..] == file; }
    while at < |file|
      invariant at <= |file| && nrec <= |cs| && cs[nrec..] == Chunks(file[at..])
      invariant i == Slot(nrec) && Ring(le[..], cs, nrec)
      decreases |file| - at
    {
      var n := ChunkLength(file[at..]);
      ChunksStep(cs, nrec, file[at..]);
      assert file[at..][..n] == file[at..at + n] && file[at..][n..] == file[at + n..];
      RingAdvances(le[..], cs, nrec);
      SlotAdvances(nrec);
      le[i] := file[at..at + n];
      at := at + n;
      nrec := nrec + 1;
      i := i + 1;
      if i >= NLE { i := 0; }
    }
    assert file[at..] == [];
    NoChunks(cs[nrec..]);
  }

  lemma EmptyRing(le: seq<seq<byte>>, cs: seq<seq<byte>>)
    requires |le| == NLE
    ensures Ring(le, cs, 0) && Slot(0) == 0
  {
  }

  lemma NoChunks(cs: seq<seq<byte>>)
    requires cs == Chunks([])
    ensures cs == []
  {
  }

  lemma LatestAt(le: seq<seq<byte>>, cs: seq<seq<byte>>, j: nat)
    requires Ring(le, cs, |cs|) && j < |Latest(cs)|
    ensures |cs| - |Latest(cs)| + j >= 0 && le[Slot(|cs| - |Latest(cs)| + j)] == Latest(cs)[j]
    ensures Latest(cs)[j..][0] == Latest(cs)[j] && Latest(cs)[j..][1..] == Latest(cs)[j + 1..]
  {
    hide Slot;
  }

  /** The second half of output_events: the slots are sent, the oldest first. */
  method SendSlots(sock: Socket, le: array<seq<byte>>, next: nat, total: nat,
                   ghost cs: seq<seq<byte>>) returns (stat: int)
    requires le.Length == NLE && total == |cs| && next == Slot(total) && Ring(le[..], cs, total)
    modifies sock`outgoing
    ensures Sent(stat, sock.outgoing) == SendEvents(old(sock.outgoing), Latest(cs))
  {
    hide Sending, Text, Ring, Slot;
    ghost var first := if total > NLE then total - NLE else 0;
    var i, nrec := next, total;
    if nrec > NLE {
      nrec := NLE;
      i := i - i / NLE * NLE;
      SameSlot(total);
    } else {
      i := 0;
      SameSlot(NLE);
    }
    var j := 0;
    while j < nrec
      invariant 0 <= j <= nrec == |Latest(cs)| && i == Slot(first + j)
      invariant SendEvents(old(sock.outgoing), Latest(cs)) == SendEvents(sock.outgoing, Latest(cs)[j..])
    {
      LatestAt(le[..], cs, j);
      SlotAdvances(first + j);
      var sent := sock.NetSend(Text(le[i]));
      if sent <= 0 { return -1; }
      i := i + 1;
      if i >= NLE { i := 0; }
      j := j + 1;
    }
    stat := 0;
  }

  lemma SameSlot(n: nat)
    requires n >= NLE
    ensures Slot(n) == Slot(n - NLE) && Slot(0) == 0
  {
  }

  lemma {:induction false} SendsEvents(out: Outgoing, cs: seq<seq<byte>>)
    requires forall a :: a in out.answers ==> !Breaks(a)
    requires forall c :: c in cs ==> c != [] && 0 !in c
    ensures var s := SendEvents(out, cs);
            s.rc == 0 && s.out.stream == out.stream + Frames(cs) && forall a :: a in s.out.answers ==> !Breaks(a)
    decreases |cs|
  {
    hide Sending, Frame, Breaks, Text;
    if cs != [] {
      assert cs[0] in cs && forall c :: c in cs[1..] ==> c in cs;
      TextOfParts(cs[0], []);
      SendsFrame(out, cs[0]);
      SendsEvents(Sending(out, cs[0]).out, cs[1..]);
    }
  }

  /** For a file without NULs the client finds exactly the last fifty chunks (all, if there are fewer), the
      oldest first, and the end mark; and it can receive them. If the server has no memory for the slots, the client
      finds the end mark alone. */
  lemma {:induction false} HistoryOnTheWire(out: Outgoing, file: seq<byte>)
    requires forall a :: a in out.answers ==> !Breaks(a)
    requires 0 !in file
    ensures var latest := Latest(Chunks(file));
            var s := SendHistory(out, latest, true);
            s.rc == 0 && s.out.stream == out.stream + Frames(latest) + Frame([]) && Receivable(latest, 499)
    ensures var s := SendHistory(out, Latest(Chunks(file)), false);
            s.rc < 0 && s.out.stream == out.stream + Frame([])
  {
    hide Sending, Frame, Breaks, Chunks, Text, SendEvents;
    ChunksMakeFile(file);
    ChunksAddNothing(file, 0);
    var latest := Latest(Chunks(file));
    assert forall c :: c in latest ==> c in Chunks(file);
    SendsEvents(out, latest);
    SendsFrame(SendEvents(out, latest).out, []);
    SendsFrame(out, []);
  }

  /** If the file consists of events, those are the last fifty events. */
  lemma {:induction false} EventsOnTheWire(out: Outgoing, rs: seq<seq<byte>>)
    requires forall a :: a in out.answers ==> !Breaks(a)
    requires AreEvents(rs)
    ensures var s := SendHistory(out, Latest(Chunks(Concat(rs))), true);
            && s.rc == 0 && s.out.stream == out.stream + Frames(LastFifty(rs)) + Frame([])
            && Latest(Chunks(Concat(rs))) == LastFifty(rs)
  {
    hide SendHistory, Frame, Frames, Breaks, Chunks, Concat;
    EventsAreCut(rs);
    ChunksOfLines(rs);
    HistoryOnTheWire(out, Concat(rs));
  }

  // Trimming

  /** The answer to a read() or write() of the events file: an error, or at most `count` bytes. */
  datatype IoAnswer = Failed | Moved(count: nat)

  /** How many bytes move when `wanted` are asked for; without answers, all of them. */
  function Moving(answers: seq<IoAnswer>, wanted: nat): int {
    if answers == [] then wanted
    else match answers[0]
      case Failed => -1
      case Moved(count) => Min(count, wanted)
  }

  function Rest(answers: seq<IoAnswer>): seq<IoAnswer> { if answers == [] then [] else answers[1..] }

  /** The limits in bytes that follow from one in kilobytes: when to trim, and how much of the end to read. */
  function Limit(kilobytes: nat): nat { kilobytes * 1024 }

  function Reduced(kilobytes: nat): (n: nat)
    ensures n <= Limit(kilobytes) && (kilobytes > 0 ==> n < Limit(kilobytes))
  {
    Limit(kilobytes) * 80 / 100
  }

  /** What follows the first newline; nothing if there is none. */
  function AfterNewline(t: seq<byte>): seq<byte> {
    var k := LineEnd(t);
    if k == 0 then [] else t[k..]
  }

  /** The file after a trim that meets no error. */
  function Trimmed(file: seq<byte>, kilobytes: nat): seq<byte> {
    if kilobytes == 0 || |file| <= Limit(kilobytes) then file
    else AfterNewline(file[|file| - Reduced(kilobytes)..])
  }

  /** Neither an error nor a premature end of file. */
  predicate Sound(answers: seq<IoAnswer>) { forall a :: a in answers ==> a.Moved? && a.count > 0 }

  /** What ends a transfer before all is moved: the first answer that moves nothing. */
  function Stop(answers: seq<IoAnswer>): Option<IoAnswer> {
    if answers == [] then None
    else if answers[0].Moved? && answers[0].count > 0 then Stop(answers[1..])
    else Some(answers[0])
  }

  /** How many bytes can move before that. */
  function Capacity(answers: seq<IoAnswer>): nat {
    if answers != [] && answers[0].Moved? && answers[0].count > 0 then answers[0].count + Capacity(answers[1..]) else 0
  }

  predicate StopsShort(answers: seq<IoAnswer>, wanted: nat) { Stop(answers).Some? && Capacity(answers) < wanted }

  /** How many of the wanted bytes move. */
  function MovedBytes(answers: seq<IoAnswer>, wanted: nat): (n: nat)
    ensures n <= wanted
  {
    if StopsShort(answers, wanted) then Capacity(answers) else wanted
  }

  lemma {:induction false} SoundMovesAll(answers: seq<IoAnswer>, wanted: nat)
    requires Sound(answers)
    ensures !StopsShort(answers, wanted) && MovedBytes(answers, wanted) == wanted
  {
    if answers != [] {
      assert answers[0] in answers && forall a :: a in answers[1..] ==> a in answers;
      SoundMovesAll(answers[1..], wanted);
    }
  }

  /** What becomes of a file whose last bytes are `end`, whatever read and write answer: of those that can be read,
      what follows the first newline, as far as it can be written. */
  function Rewritten(end: seq<byte>, recvs: seq<IoAnswer>, sends: seq<IoAnswer>): seq<byte> {
    var kept := AfterNewline(end[..MovedBytes(recvs, |end|)]);
    kept[..MovedBytes(sends, |kept|)]
  }

  /** A read() fails, or a write() stops short. */
  predicate Errs(end: seq<byte>, recvs: seq<IoAnswer>, sends: seq<IoAnswer>) {
    var kept := AfterNewline(end[..MovedBytes(recvs, |end|)]);
    (StopsShort(recvs, |end|) && Stop(recvs) == Some(Failed)) || StopsShort(sends, |kept|)
  }

  lemma {:induction false} SoundRewrites(end: seq<byte>, recvs: seq<IoAnswer>, sends: seq<IoAnswer>)
    requires Sound(recvs) && Sound(sends)
    ensures Rewritten(end, recvs, sends) == AfterNewline(end) && !Errs(end, recvs, sends)
  {
    hide Sound, AfterNewline, MovedBytes, StopsShort;
    SoundMovesAll(recvs, |end|);
    SoundMovesAll(sends, |AfterNewline(end)|);
    assert end[..|end|] == end;
  }

  /** `now` is a contiguous part of `was`. */
  ghost predicate PartOf(now: seq<byte>, was: seq<byte>) {
    exists i, j :: 0 <= i <= j <= |was| && now == was[i..j]
  }

  lemma {:induction false} RewrittenIsPart(file: seq<byte>, from: nat, recvs: seq<IoAnswer>, sends: seq<IoAnswer>)
    requires from <= |file|
    ensures PartOf(Rewritten(file[from..], recvs, sends), file)
  {
    hide MovedBytes;
    var end := file[from..];
    var buf := end[..MovedBytes(recvs, |end|)];
    var k := if LineEnd(buf) == 0 then |buf| else LineEnd(buf);
    var n := MovedBytes(sends, |buf| - k);
    assert AfterNewline(buf) == buf[k..];
    PartOfPart(file, from, |buf|, k, n);
  }

  lemma PartOfPart(file: seq<byte>, from: nat, m: nat, k: nat, n: nat)
    requires from + m <= |file| && k + n <= m
    ensures PartOf(file[from..][..m][k..][..n], file)
  {
    assert file[from..][..m] == file[from..from + m];
    assert file[from..from + m][k..] == file[from + k..from + m];
    assert file[from + k..from + m][..n] == file[from + k..from + k + n];
  }

  lemma IsPart(was: seq<byte>)
    ensures PartOf(was, was)
  {
    assert was == was[0..|was|];
  }

  /** `t` is the longest end of the file that has no more than `keep` bytes and starts behind a newline. */
  ghost predicate LongestEnd(t: seq<byte>, file: seq<byte>, keep: nat) {
    && |t| <= keep && |t| <= |file| && t == file[|file| - |t|..]
    && (t != [] ==> |t| < |file| && file[|file| - |t| - 1] == 10)
    && forall n :: 0 <= n < |file| && |file| - keep <= n && file[n] == 10 ==> |t| >= |file| - (n + 1)
  }

  class EventFile {
    var contents: seq<byte>

    /** trim_eventfile. `enabled`: the events file has a name and is open; `known`, `memory` and `sought` tell
        whether stat, malloc and lseek succeed; `recvs` and `sends` are the answers of read() and write(). */
    method TrimEventfile(kilobytes: nat, enabled: bool, known: bool, memory: bool, sought: bool,
                         recvs: seq<IoAnswer>, sends: seq<IoAnswer>) returns (status: int, rwerror: bool)
      modifies `contents
      ensures var large := |old(contents)| > kilobytes * 1024;
              status == if kilobytes == 0 || !enabled then 0 else if !known then -1 else if !large then 0
                        else if !memory || !sought then -1 else 1
      ensures status != 1 ==> contents == old(contents) && !rwerror
      ensures status == 1 ==>
                var end := old(contents[|contents| - kilobytes * 1024 * 80 / 100..]);
                contents == Rewritten(end, recvs, sends) && rwerror == Errs(end, recvs, sends)
      ensures status == 1 && Sound(recvs) && Sound(sends) ==>
                contents == Trimmed(old(contents), kilobytes) && !rwerror &&
                LongestEnd(contents, old(contents), kilobytes * 1024 * 80 / 100)
      ensures PartOf(contents, old(contents))
    {
      hide Sound, AfterNewline, PartOf, LongestEnd, Trimmed, Rewritten, Errs;
      status, rwerror := -1, false;
      IsPart(contents);
      if kilobytes == 0 || !enabled { return 0, false; }
      if !known { return; }
      if |contents| <= Limit(kilobytes) { return 0, false; }
      if !memory || !sought { return; }
      TrimmedFile(contents, kilobytes);
      ghost var end := contents[|contents| - Reduced(kilobytes)..];
      if Sound(recvs) && Sound(sends) { SoundRewrites(end, recvs, sends); }
      RewrittenIsPart(contents, |contents| - Reduced(kilobytes), recvs, sends);
      rwerror := KeepEnd(|contents| - Reduced(kilobytes), recvs, sends);
      status := 1;
    }

    /** Reads the end of the file, skips to the first newline in it and writes the rest to the emptied file. */
    method KeepEnd(from: nat, recvs: seq<IoAnswer>, sends: seq<IoAnswer>) returns (rwerror: bool)
      requires from <= |contents|
      modifies `contents
      ensures contents == Rewritten(old(contents[from..]), recvs, sends)
      ensures rwerror == Errs(old(contents[from..]), recvs, sends)
    {
      hide AfterNewline, MovedBytes, StopsShort;
      ghost var end := contents[from..];
      var nbytes, failedRead := ReadEnd(from, |contents| - from, recvs);
      var buf := contents[from..from + nbytes];
      var i := SkipLine(buf);
      contents := [];
      var failedWrite := WriteAll(buf[i..], sends);
      rwerror := failedRead || failedWrite;
      assert buf == end[..nbytes];
    }

    /** The position behind the first newline, or the end. */
    method SkipLine(buf: seq<byte>) returns (i: nat)
      ensures i <= |buf| && buf[i..] == AfterNewline(buf)
    {
      i := 0;
      while i < |buf|
        invariant i <= |buf| && LineEnd(buf) == if LineEnd(buf[i..]) == 0 then 0 else i + LineEnd(buf[i..])
      {
        i := i + 1;
        if buf[i - 1] == NEWLINE { break; }
      }
    }

    /** The read loop. */
    method ReadEnd(from: nat, maxb: nat, recvs: seq<IoAnswer>) returns (nbytes: nat, failed: bool)
      requires from + maxb == |contents|
      ensures nbytes == MovedBytes(recvs, maxb) && nbytes <= maxb
      ensures failed == (StopsShort(recvs, maxb) && Stop(recvs) == Some(Failed))
    {
      var answers := recvs;
      nbytes, failed := 0, false;
      while nbytes < maxb
        invariant nbytes <= maxb && !failed && Stop(answers) == Stop(recvs)
        invariant StopsShort(answers, maxb - nbytes) == StopsShort(recvs, maxb)
        invariant nbytes + MovedBytes(answers, maxb - nbytes) == MovedBytes(recvs, maxb)
        decreases |answers|, maxb - nbytes
      {
        var r := Moving(answers, maxb - nbytes);
        if r < 0 { failed := true; }
        if r <= 0 { break; }
        answers := Rest(answers);
        nbytes := nbytes + r;
      }
    }

    /** The write loop. */
    method WriteAll(data: seq<byte>, sends: seq<IoAnswer>) returns (failed: bool)
      modifies `contents
      ensures contents == old(contents) + data[..MovedBytes(sends, |data|)]
      ensures failed == StopsShort(sends, |data|)
    {
      var answers := sends;
      var i := 0;
      failed := false;
      while i < |data|
        invariant 0 <= i <= |data| && !failed
        invariant StopsShort(answers, |data| - i) == StopsShort(sends, |data|)
        invariant i + MovedBytes(answers, |data| - i) == MovedBytes(sends, |data|)
        invariant contents == old(contents) + data[..i]
        decreases |answers|, |data| - i
      {
        var r := Moving(answers, |data| - i);
        if r <= 0 {
          failed := true;
          break;
        }
        answers := Rest(answers);
        contents := contents + data[i..i + r];
        i := i + r;
      }
    }
  }

  /** A trimmed file is the longest end of the old one that fits into four fifths of the limit and starts on a line
      boundary; so it is below the limit, and a second trim finds nothing to do. */
  lemma {:induction false} TrimmedFile(file: seq<byte>, kilobytes: nat)
    requires kilobytes > 0 && |file| > kilobytes * 1024
    ensures var t := Trimmed(file, kilobytes);
            && LongestEnd(t, file, kilobytes * 1024 * 80 / 100)
            && t == AfterNewline(file[|file| - Reduced(kilobytes)..])
            && |t| < kilobytes * 1024 && Trimmed(t, kilobytes) == t
  {
    AfterFirstLine(file, |file| - Reduced(kilobytes));
  }

  /** What follows the first newline behind position `from`. */
  lemma {:induction false} AfterFirstLine(file: seq<byte>, from: nat)
    requires from <= |file|
    ensures LongestEnd(AfterNewline(file[from..]), file, |file| - from)
  {
    var end := file[from..];
    var k, t := LineEnd(end), AfterNewline(end);
    assert end[k..] == file[from + k..];
    forall n | from <= n < |file| && file[n] == 10
      ensures |t| >= |file| - (n + 1)
    {
      assert end[n - from] == file[n];
    }
  }
}
