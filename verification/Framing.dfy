/** src/lib/apclibnis.c: messages with a two-byte length in front, over a byte stream whose reads and writes
    may be short, interrupted or fail. */
module Framing {

  type byte = x: int | 0 <= x < 256

  // The errno values that appear as such
  const EINVAL := 22
  const ETIMEDOUT := 110

  type Errno = x: int | x > 0 witness 1

  /** What one turn of the receive loop meets: select() is interrupted, fails or times out; or it reports data
      and recv() asks to be called again, fails, or delivers at most `count` bytes. */
  datatype RecvAnswer =
    | Interrupted
    | SelectFailed(e: Errno)
    | TimedOut
    | RecvAgain
    | RecvFailed(e: Errno)
    | Delivered(count: nat)

  /** The bytes that will arrive, after which the peer has closed, and the answers to come. When no answers
      are left, the network delivers all that is asked for and there. */
  datatype Incoming = Incoming(answers: seq<RecvAnswer>, stream: seq<byte>) {
    function Next(): RecvAnswer { if answers == [] then Delivered(|stream|) else answers[0] }
    function Later(): Incoming { if answers == [] then this else this.(answers := answers[1..]) }
  }

  datatype SendAnswer = SendAgain | SendEof | SendFailed(e: Errno) | Accepted(count: nat)

  /** The bytes sent so far and the answers of send() to come; without answers it takes everything. */
  datatype Outgoing = Outgoing(answers: seq<SendAnswer>, stream: seq<byte>)

  /** A return code, the buffer it goes with, and what is left of the input. */
  datatype Received = Received(rc: int, buf: seq<byte>, rest: Incoming)

  datatype Sent = Sent(rc: int, out: Outgoing)

  function Min(a: int, b: int): int { if a < b then a else b }

  /** What recv() delivers now, if it may deliver at most `most` and `left` are wanted. */
  function Delivery(inc: Incoming, most: nat, left: nat): seq<byte> {
    inc.stream[..Min(Min(if most == 0 then 1 else most, left), |inc.stream|)]
  }

  function Splice(buf: seq<byte>, at: nat, data: seq<byte>): (r: seq<byte>)
    requires at + |data| <= |buf|
    ensures |r| == |buf|
  {
    buf[..at] + data + buf[at + |data|..]
  }

  /** read_nbytes with `pos` bytes accounted for, `left` to go and `last` the value of nread. An interrupted
      select() leads to the loop test with that old value: it repeats only after an interrupted recv(). */
  function Reading(inc: Incoming, buf: seq<byte>, pos: nat, left: int, last: int): Received
    requires left > 0 ==> pos + left <= |buf|
    requires last >= -1
    decreases |inc.answers|, left
  {
    if left <= 0 then Received(pos, buf, inc)
    else match inc.Next()
      case Interrupted =>
        if last == -1 then Reading(inc.Later(), buf, pos, left, last)
        else if last == 0 then Received(0, buf, inc.Later())
        else Reading(inc.Later(), buf, pos + last, left - last, last)
      case SelectFailed(e) => Received(0 - e, buf, inc.Later())
      case TimedOut => Received(-ETIMEDOUT, buf, inc.Later())
      case RecvAgain => Reading(inc.Later(), buf, pos, left, -1)
      case RecvFailed(e) => Received(0 - e, buf, inc.Later())
      case Delivered(most) =>
        var data := Delivery(inc, most, left);
        var rest := inc.Later().(stream := inc.stream[|data|..]);
        if data == [] then Received(0, buf, rest)
        else Reading(rest, Splice(buf, pos, data), pos + |data|, left - |data|, |data|)
  }

  /** write_nbytes: `done` bytes of `data` are out. */
  function Writing(out: Outgoing, data: seq<byte>, done: nat): Sent
    requires done <= |data|
    decreases |out.answers|, |data| - done
  {
    if done == |data| then Sent(done, out)
    else if out.answers == [] then Sent(|data|, out.(stream := out.stream + data[done..]))
    else
      var later := out.(answers := out.answers[1..]);
      match out.answers[0]
      case SendAgain => Writing(later, data, done)
      case SendEof => Sent(done, later)
      case SendFailed(e) => Sent(0 - e, later)
      case Accepted(count) =>
        var n := Min(if count == 0 then 1 else count, |data| - done);
        Writing(later.(stream := out.stream + data[done..done + n]), data, done + n)
  }

  /** The length as a 16-bit number in network byte order: what does not fit is cut off. */
  function Header(len: nat): seq<byte> {
    var size := len % 0x1_0000;
    assert 0 <= size / 0x100 < 0x100;
    [size / 0x100, size % 0x100]
  }

  function Length(header: seq<byte>): nat
    requires |header| == 2
  {
    header[0] as int * 0x100 + header[1] as int
  }

  /** net_recv; `scratch` is what the uninitialised length variable holds. */
  function Receiving(inc: Incoming, buf: seq<byte>, maxlen: nat, scratch: seq<byte>): Received
    requires maxlen <= |buf| && |scratch| == 2
  {
    var head := Reading(inc, scratch, 0, 2, 0);
    if head.rc <= 0 then Received(head.rc, buf, head.rest)
    else if head.rc != 2 || |head.buf| != 2 then Received(-EINVAL, buf, head.rest)
    else
      var size := Length(head.buf);
      if size > maxlen then Received(-EINVAL, buf, head.rest)
      else if size == 0 then Received(0, buf, head.rest)
      else
        var body := Reading(head.rest, buf, 0, size, 0);
        if body.rc <= 0 || body.rc == size then body else body.(rc := -EINVAL)
  }

  /** net_send */
  function Sending(out: Outgoing, data: seq<byte>): Sent {
    var head := Writing(out, Header(|data|), 0);
    if head.rc <= 0 then head
    else if head.rc != 2 then head.(rc := -EINVAL)
    else
      var body := Writing(head.out, data, 0);
      if body.rc <= 0 || body.rc == |data| then body else body.(rc := -EINVAL)
  }

  /** The bytes on the wire for one message, and for several. */
  function Frame(m: seq<byte>): seq<byte> { Header(|m|) + m }

  function Frames(ms: seq<seq<byte>>): seq<byte> {
    if ms == [] then [] else Frame(ms[0]) + Frames(ms[1..])
  }

  // The sender

  /** The answers that a write used up are all but the last harmless; a bad last one stops it with the code that the
      answer tells, and otherwise everything is out. */
  ghost predicate StopsRightly(out: Outgoing, data: seq<byte>, done: nat, w: Sent) {
    var k, n := |out.answers| - |w.out.answers|, |w.out.stream| - |out.stream|;
    && 0 <= k && w.out.answers == out.answers[k..] && (forall j :: 0 <= j < k - 1 ==> !Breaks(out.answers[j]))
    && if k > 0 && Breaks(out.answers[k - 1]) then
         done + n < |data| && w.rc == if out.answers[k - 1].SendEof? then done + n else 0 - out.answers[k - 1].e
       else done + n == |data| == w.rc
  }

  lemma {:induction false} StopsLater(out: Outgoing, next: Outgoing, data: seq<byte>, done: nat, m: nat, w: Sent)
    requires out.answers != [] && next.answers == out.answers[1..] && !Breaks(out.answers[0])
    requires |next.stream| == |out.stream| + m && StopsRightly(next, data, done + m, w)
    ensures StopsRightly(out, data, done, w)
  {
    var k := |next.answers| - |w.out.answers|;
    assert out.answers[1..][k..] == out.answers[k + 1..];
    assert forall j :: 0 < j <= k ==> out.answers[j] == next.answers[j - 1];
  }

  lemma {:induction false} WriteStops(out: Outgoing, data: seq<byte>, done: nat)
    requires done <= |data|
    ensures StopsRightly(out, data, done, Writing(out, data, done))
    decreases |out.answers|, |data| - done
  {
    hide StopsRightly;
    var w := Writing(out, data, done);
    if done == |data| || out.answers == [] || Breaks(out.answers[0]) {
      StopsAtOnce(out, data, done, w);
    } else {
      var later := out.(answers := out.answers[1..]);
      match out.answers[0]
      case SendAgain =>
        WriteStops(later, data, done);
        StopsLater(out, later, data, done, 0, w);
      case Accepted(count) =>
        var n := Min(if count == 0 then 1 else count, |data| - done);
        var next := later.(stream := out.stream + data[done..done + n]);
        WriteStops(next, data, done + n);
        StopsLater(out, next, data, done, n, w);
    }
  }

  lemma {:induction false} StopsAtOnce(out: Outgoing, data: seq<byte>, done: nat, w: Sent)
    requires done <= |data| && w == Writing(out, data, done)
    requires done == |data| || out.answers == [] || Breaks(out.answers[0])
    ensures StopsRightly(out, data, done, w)
  {
    if done < |data| && out.answers != [] {
      assert out.answers[1..] == out.answers[|out.answers| - |w.out.answers|..];
    }
  }

  /** Only an answer of this kind makes a write fall short. */
  predicate Breaks(a: SendAnswer) { a.SendEof? || a.SendFailed? }

  /** Between `out` and `w`, a part of `data` from `done` on got out; all of it, if nothing broke. */
  ghost predicate PartWritten(out: Outgoing, data: seq<byte>, done: nat, w: Sent)
    requires done <= |data|
  {
    var n := |w.out.stream| - |out.stream|;
    && 0 <= n <= |data| - done && w.out.stream == out.stream + data[done..done + n]
    && (w.rc >= 0 ==> w.rc == done + n)
    && (w.rc < |data| ==> exists a :: a in out.answers && Breaks(a))
    && (forall a :: a in w.out.answers ==> a in out.answers)
  }

  lemma {:induction false} WritesPart(out: Outgoing, data: seq<byte>, done: nat)
    requires done <= |data|
    ensures PartWritten(out, data, done, Writing(out, data, done))
    decreases |out.answers|, |data| - done
  {
    if done < |data| && out.answers != [] {
      var later := out.(answers := out.answers[1..]);
      assert out.answers[0] in out.answers;
      match out.answers[0]
      case SendAgain => WritesPart(later, data, done);
      case SendEof =>
      case SendFailed(e) =>
      case Accepted(count) =>
        var n := Min(if count == 0 then 1 else count, |data| - done);
        AcceptedPart(out, data, done, n);
    }
  }

  lemma {:induction false} AcceptedPart(out: Outgoing, data: seq<byte>, done: nat, n: nat)
    requires done < done + n <= |data| && out.answers != []
    ensures var next := Outgoing(out.answers[1..], out.stream + data[done..done + n]);
            PartWritten(out, data, done, Writing(next, data, done + n))
    decreases |out.answers|, |data| - done, 0
  {
    var next := Outgoing(out.answers[1..], out.stream + data[done..done + n]);
    WritesPart(next, data, done + n);
    var w := Writing(next, data, done + n);
    var m := |w.out.stream| - |next.stream|;
    assert data[done..done + n] + data[done + n..done + n + m] == data[done..done + n + m];
  }

  /** net_send only returns a positive number when exactly the frame went out, and fails only if an answer
      broke the connection; what went out is always a prefix of the frame. */
  lemma {:induction false} SendsFrame(out: Outgoing, data: seq<byte>)
    ensures var s := Sending(out, data);
            && out.stream <= s.out.stream <= out.stream + Frame(data)
            && (s.rc > 0 ==> s.rc == |data| && s.out.stream == out.stream + Frame(data))
            && ((forall a :: a in out.answers ==> !Breaks(a)) ==>
                  s.rc == |data| && s.out.stream == out.stream + Frame(data))
            && (forall a :: a in s.out.answers ==> a in out.answers)
  {
    hide Writing;
    var header := Header(|data|);
    WritesPart(out, header, 0);
    var head := Writing(out, header, 0);
    if head.rc == 2 {
      assert header[..2] == header;
      WritesPart(head.out, data, 0);
      var body := Writing(head.out, data, 0);
      var n := |body.out.stream| - |head.out.stream|;
      assert body.out.stream == out.stream + (header + data[..n]);
      assert data[..|data|] == data;
    }
  }

  // The receiver

  /** select() is only interrupted right after an interrupted recv() (`again`: there was one just before),
      and nothing fails. */
  predicate Calm(answers: seq<RecvAnswer>, again: bool) {
    answers == [] ||
    match answers[0]
    case Interrupted => again && Calm(answers[1..], true)
    case RecvAgain => Calm(answers[1..], true)
    case Delivered(_) => Calm(answers[1..], false)
    case _ => false
  }

  /** `left` more bytes of the stream arrived at `pos`, and nothing else changed. */
  ghost predicate ReadExact(inc: Incoming, buf: seq<byte>, pos: nat, left: nat, r: Received)
    requires pos + left <= |buf|
  {
    && left <= |inc.stream| && r.rc == pos + left && r.buf == Splice(buf, pos, inc.stream[..left])
    && r.rest.stream == inc.stream[left..]
  }

  /** The same, and the network stays calm. */
  ghost predicate ReadWhole(inc: Incoming, buf: seq<byte>, pos: nat, left: nat, r: Received)
    requires left <= |inc.stream| && pos + left <= |buf|
  {
    ReadExact(inc, buf, pos, left, r) && Calm(r.rest.answers, false)
  }

  lemma SpliceTwice(buf: seq<byte>, pos: nat, a: seq<byte>, b: seq<byte>)
    requires pos + |a| + |b| <= |buf|
    ensures Splice(Splice(buf, pos, a), pos + |a|, b) == Splice(buf, pos, a + b)
  {
  }

  lemma {:induction false} ReadInParts(inc: Incoming, later: Incoming, buf: seq<byte>, pos: nat, left: nat,
                                       n: nat, r: Received)
    requires n <= left <= |inc.stream| && pos + left <= |buf| && later.stream == inc.stream[n..]
    requires ReadWhole(later, Splice(buf, pos, inc.stream[..n]), pos + n, left - n, r)
    ensures ReadWhole(inc, buf, pos, left, r)
  {
    hide Splice, Calm;
    SpliceTwice(buf, pos, inc.stream[..n], later.stream[..left - n]);
    assert inc.stream[..left] == inc.stream[..n] + later.stream[..left - n];
    assert inc.stream[left..] == later.stream[left - n..];
  }

  /** Without untimely interruptions and failures a read is whole, however short its parts. */
  lemma {:induction false} CalmReading(inc: Incoming, buf: seq<byte>, pos: nat, left: int, last: int)
    requires 0 < left <= |inc.stream| && pos + left <= |buf| && last >= -1
    requires Calm(inc.answers, last == -1)
    ensures ReadWhole(inc, buf, pos, left, Reading(inc, buf, pos, left, last))
    decreases |inc.answers|, left
  {
    hide Splice, ReadWhole;
    match inc.Next()
    case Interrupted =>
      CalmReading(inc.Later(), buf, pos, left, last);
      SameRead(inc, buf, pos, left, Reading(inc.Later(), buf, pos, left, last));
    case RecvAgain =>
      CalmReading(inc.Later(), buf, pos, left, -1);
      SameRead(inc, buf, pos, left, Reading(inc.Later(), buf, pos, left, -1));
    case Delivered(most) => CalmDelivery(inc, buf, pos, left, last);
    case _ =>
  }

  lemma SameRead(inc: Incoming, buf: seq<byte>, pos: nat, left: nat, r: Received)
    requires left <= |inc.stream| && pos + left <= |buf| && ReadWhole(inc.Later(), buf, pos, left, r)
    ensures ReadWhole(inc, buf, pos, left, r)
  {
  }

  lemma {:induction false} CalmDelivery(inc: Incoming, buf: seq<byte>, pos: nat, left: int, last: int)
    requires 0 < left <= |inc.stream| && pos + left <= |buf| && last >= -1
    requires inc.Next().Delivered? && Calm(inc.answers, last == -1)
    ensures ReadWhole(inc, buf, pos, left, Reading(inc, buf, pos, left, last))
    decreases |inc.answers|, left, 0
  {
    hide Splice;
    var data := Delivery(inc, inc.Next().count, left);
    var n := |data|;
    var later := inc.Later().(stream := inc.stream[n..]);
    var r := Reading(later, Splice(buf, pos, data), pos + n, left - n, n);
    if n < left {
      CalmReading(later, Splice(buf, pos, data), pos + n, left - n, n);
      ReadInParts(inc, later, buf, pos, left, n, r);
    }
  }

  /** What a read returns for an answer that ends it. */
  function Code(a: RecvAnswer): int {
    match a
    case SelectFailed(e) => 0 - e
    case RecvFailed(e) => 0 - e
    case TimedOut => -ETIMEDOUT
    case _ => 0
  }

  predicate Fails(a: RecvAnswer) { a.SelectFailed? || a.RecvFailed? || a.TimedOut? }

  /** A read uses up the answers up to the first failure at most, and returns a negative number exactly if it comes to
      that, which is then the code of the failure. */
  ghost predicate FailsRightly(answers: seq<RecvAnswer>, r: Received) {
    var k := |answers| - |r.rest.answers|;
    && 0 <= k && r.rest.answers == answers[k..] && (forall j :: 0 <= j < k - 1 ==> !Fails(answers[j]))
    && if k > 0 && Fails(answers[k - 1]) then r.rc == Code(answers[k - 1]) else r.rc >= 0
  }

  lemma {:induction false} FailsLater(answers: seq<RecvAnswer>, r: Received)
    requires answers != [] && !Fails(answers[0]) && FailsRightly(answers[1..], r)
    ensures FailsRightly(answers, r)
  {
    var k := |answers| - 1 - |r.rest.answers|;
    assert answers[1..][k..] == answers[k + 1..];
    assert forall j :: 0 < j <= k ==> answers[j] == answers[1..][j - 1];
  }

  lemma {:induction false} ReadFails(inc: Incoming, buf: seq<byte>, pos: nat, left: int, last: int)
    requires left > 0 ==> pos + left <= |buf|
    requires last >= -1
    ensures FailsRightly(inc.answers, Reading(inc, buf, pos, left, last))
    decreases |inc.answers|, left
  {
    hide Splice, FailsRightly;
    var r := Reading(inc, buf, pos, left, last);
    if left <= 0 || Fails(inc.Next()) || (inc.Next().Interrupted? && last == 0) {
      FailsAtOnce(inc, buf, pos, left, last);
    } else {
      match inc.Next() {
        case Interrupted =>
          if last == -1 { ReadFails(inc.Later(), buf, pos, left, last); }
          else { ReadFails(inc.Later(), buf, pos + last, left - last, last); }
        case RecvAgain => ReadFails(inc.Later(), buf, pos, left, -1);
        case Delivered(most) => DeliveryFails(inc, buf, pos, left, last);
      }
      if inc.answers != [] { FailsLater(inc.answers, r); }
    }
  }

  lemma {:induction false} FailsAtOnce(inc: Incoming, buf: seq<byte>, pos: nat, left: int, last: int)
    requires left > 0 ==> pos + left <= |buf|
    requires last >= -1
    requires left <= 0 || Fails(inc.Next()) || (inc.Next().Interrupted? && last == 0)
    ensures FailsRightly(inc.answers, Reading(inc, buf, pos, left, last))
  {
    if left > 0 { assert inc.answers[1..] == inc.answers[|inc.answers| - |inc.Later().answers|..]; }
  }

  lemma {:induction false} DeliveryFails(inc: Incoming, buf: seq<byte>, pos: nat, left: int, last: int)
    requires left > 0 && pos + left <= |buf| && last >= -1 && inc.Next().Delivered?
    ensures FailsRightly(inc.Later().answers, Reading(inc, buf, pos, left, last))
    decreases |inc.answers|, left, 0
  {
    hide Splice, FailsRightly;
    var data := Delivery(inc, inc.Next().count, left);
    var rest := inc.Later().(stream := inc.stream[|data|..]);
    if data == [] {
      NothingFails(rest.answers, Reading(inc, buf, pos, left, last));
    } else {
      ReadFails(rest, Splice(buf, pos, data), pos + |data|, left - |data|, |data|);
    }
  }

  lemma NothingFails(answers: seq<RecvAnswer>, r: Received)
    requires r.rest.answers == answers && r.rc == 0
    ensures FailsRightly(answers, r)
  {
  }

  /** A read never takes more than was asked for. */
  lemma {:induction false} NeverOverreads(inc: Incoming, buf: seq<byte>, pos: nat, left: int, last: int)
    requires left > 0 ==> pos + left <= |buf|
    requires last >= -1
    ensures var r := Reading(inc, buf, pos, left, last);
            && |r.rest.answers| <= |inc.answers|
            && 0 <= |inc.stream| - |r.rest.stream| <= if left > 0 then left else 0
    decreases |inc.answers|, left
  {
    hide Splice;
    if left > 0 {
      match inc.Next()
      case Interrupted =>
        if last == -1 { NeverOverreads(inc.Later(), buf, pos, left, last); }
        else if last > 0 { NeverOverreads(inc.Later(), buf, pos + last, left - last, last); }
      case RecvAgain => NeverOverreads(inc.Later(), buf, pos, left, -1);
      case Delivered(most) =>
        var data := Delivery(inc, most, left);
        var rest := inc.Later().(stream := inc.stream[|data|..]);
        if data != [] { NeverOverreads(rest, Splice(buf, pos, data), pos + |data|, left - |data|, |data|); }
      case _ =>
    }
  }

  /** A read that returns data has taken some. */
  lemma {:induction false} TakesSome(inc: Incoming, buf: seq<byte>, pos: nat, left: int, last: int)
    requires left > 0 && pos + left <= |buf| && -1 <= last <= 0
    ensures var r := Reading(inc, buf, pos, left, last); r.rc > 0 ==> |r.rest.stream| < |inc.stream|
    decreases |inc.answers|
  {
    hide Splice;
    match inc.Next()
    case Interrupted => if last == -1 { TakesSome(inc.Later(), buf, pos, left, last); }
    case RecvAgain => TakesSome(inc.Later(), buf, pos, left, -1);
    case Delivered(most) =>
      var data := Delivery(inc, most, left);
      var rest := inc.Later().(stream := inc.stream[|data|..]);
      if data != [] { NeverOverreads(rest, Splice(buf, pos, data), pos + |data|, left - |data|, |data|); }
    case _ =>
  }

  /** The answers, as far as a read of `left` bytes from a stream of `length` bytes gets to see them, are such
      that nothing fails, the stream does not end, and select() is only interrupted right after an interrupted
      recv() (`again`: there was one just before). */
  predicate Undisturbed(answers: seq<RecvAnswer>, length: nat, left: nat, again: bool)
    decreases |answers|
  {
    if left == 0 then true
    else if answers == [] then left <= length
    else match answers[0]
      case Interrupted => again && Undisturbed(answers[1..], length, left, true)
      case RecvAgain => Undisturbed(answers[1..], length, left, true)
      case Delivered(most) =>
        var n := Min(Min(if most == 0 then 1 else most, left), length);
        n > 0 && Undisturbed(answers[1..], length - n, left - n, false)
      case _ => false
  }

  lemma {:induction false} ExactInParts(inc: Incoming, later: Incoming, buf: seq<byte>, pos: nat, left: nat, n: nat,
                                        r: Received)
    requires n <= left && n <= |inc.stream| && pos + left <= |buf| && later.stream == inc.stream[n..]
    ensures ReadExact(inc, buf, pos, left, r) <==>
            ReadExact(later, Splice(buf, pos, inc.stream[..n]), pos + n, left - n, r)
  {
    hide Splice;
    if left <= |inc.stream| {
      SpliceTwice(buf, pos, inc.stream[..n], later.stream[..left - n]);
      assert inc.stream[..left] == inc.stream[..n] + later.stream[..left - n];
      assert inc.stream[left..] == later.stream[left - n..];
    }
  }

  lemma ExactIgnoresAnswers(inc: Incoming, later: Incoming, buf: seq<byte>, pos: nat, left: nat, r: Received)
    requires pos + left <= |buf| && later.stream == inc.stream
    ensures ReadExact(later, buf, pos, left, r) == ReadExact(inc, buf, pos, left, r)
  {
  }

  lemma TooFewTaken(inc: Incoming, buf: seq<byte>, pos: nat, left: nat, r: Received)
    requires pos + left <= |buf| && (|inc.stream| - |r.rest.stream| < left || r.rc <= 0 < pos + left)
    ensures !ReadExact(inc, buf, pos, left, r)
  {
  }

  lemma NothingToRead(inc: Incoming, buf: seq<byte>, pos: nat)
    requires pos <= |buf|
    ensures ReadExact(inc, buf, pos, 0, Received(pos, buf, inc))
  {
    assert Splice(buf, pos, inc.stream[..0]) == buf;
  }

  /** For any answers whatever, a read is right (it returns the count asked for, and exactly that many bytes of
      the stream went to the buffer) if and only if it is undisturbed. */
  lemma {:induction false} ReadRightIffUndisturbed(inc: Incoming, buf: seq<byte>, pos: nat, left: int, last: int)
    requires 0 <= left && pos + left <= |buf| && last >= -1
    ensures ReadExact(inc, buf, pos, left, Reading(inc, buf, pos, left, last)) <==>
            Undisturbed(inc.answers, |inc.stream|, left, last == -1)
    decreases |inc.answers|, left
  {
    hide Splice, ReadExact;
    var r := Reading(inc, buf, pos, left, last);
    if left == 0 {
      NothingToRead(inc, buf, pos);
      return;
    }
    match inc.Next()
    case Interrupted =>
      if last == -1 {
        ReadRightIffUndisturbed(inc.Later(), buf, pos, left, last);
        ExactIgnoresAnswers(inc, inc.Later(), buf, pos, left, r);
      } else {
        if last > 0 { NeverOverreads(inc.Later(), buf, pos + last, left - last, last); }
        TooFewTaken(inc, buf, pos, left, r);
      }
    case RecvAgain =>
      ReadRightIffUndisturbed(inc.Later(), buf, pos, left, -1);
      ExactIgnoresAnswers(inc, inc.Later(), buf, pos, left, r);
    case Delivered(most) => DeliveryRightIffUndisturbed(inc, buf, pos, left, last);
    case _ => TooFewTaken(inc, buf, pos, left, r);
  }

  lemma {:induction false} DeliveryRightIffUndisturbed(inc: Incoming, buf: seq<byte>, pos: nat, left: int, last: int)
    requires 0 < left && pos + left <= |buf| && last >= -1 && inc.Next().Delivered?
    ensures ReadExact(inc, buf, pos, left, Reading(inc, buf, pos, left, last)) <==>
            Undisturbed(inc.answers, |inc.stream|, left, last == -1)
    decreases |inc.answers|, left, 0
  {
    hide Splice, ReadExact;
    var data := Delivery(inc, inc.Next().count, left);
    var n := |data|;
    var later := inc.Later().(stream := inc.stream[n..]);
    var r := Reading(inc, buf, pos, left, last);
    if n == 0 {
      TooFewTaken(inc, buf, pos, left, r);
    } else {
      ReadRightIffUndisturbed(later, Splice(buf, pos, data), pos + n, left - n, n);
      ExactInParts(inc, later, buf, pos, left, n, r);
    }
  }

  // Frames

  lemma {:induction false} HeaderGivesLength(len: nat)
    ensures |Header(len)| == 2 && Length(Header(len)) == len % 0x1_0000
    ensures Header(len)[0] as int * 256 + Header(len)[1] as int == len % 0x1_0000
  {
    var size := len % 0x1_0000;
    assert size == size / 0x100 * 0x100 + size % 0x100;
  }

  /** With a calm network net_recv takes the length from the first two bytes and then that many bytes, if
      they fit the buffer. */
  lemma {:induction false} CalmReceiving(inc: Incoming, buf: seq<byte>, maxlen: nat, scratch: seq<byte>, len: nat)
    requires maxlen <= |buf| && |scratch| == 2 && Calm(inc.answers, false)
    requires Header(len) <= inc.stream && 2 + len % 0x1_0000 <= |inc.stream|
    ensures var r, size := Receiving(inc, buf, maxlen, scratch), len % 0x1_0000;
            && Calm(r.rest.answers, false)
            && if size > maxlen then r.rc == -EINVAL && r.buf == buf && r.rest.stream == inc.stream[2..]
               else r.rc == size && r.buf == Splice(buf, 0, inc.stream[2..2 + size]) &&
                    r.rest.stream == inc.stream[2 + size..]
  {
    hide Calm, Reading, Header, Length;
    HeaderGivesLength(len);
    var size := len % 0x1_0000;
    CalmReading(inc, scratch, 0, 2, 0);
    var head := Reading(inc, scratch, 0, 2, 0);
    assert head.buf == Header(len);
    if 0 < size <= maxlen {
      CalmReading(head.rest, buf, 0, size, 0);
      assert head.rest.stream[..size] == inc.stream[2..2 + size];
      assert head.rest.stream[size..] == inc.stream[2 + size..];
    }
  }

  /** Whatever happens, net_recv returns no more than the buffer holds, and takes bytes for what it returns. */
  lemma {:induction false} ReceivingBounds(inc: Incoming, buf: seq<byte>, maxlen: nat, scratch: seq<byte>)
    requires maxlen <= |buf| && |scratch| == 2
    ensures var r := Receiving(inc, buf, maxlen, scratch);
            r.rc <= maxlen && (r.rc > 0 ==> |r.rest.stream| < |inc.stream|)
  {
    hide Reading;
    TakesSome(inc, scratch, 0, 2, 0);
    var head := Reading(inc, scratch, 0, 2, 0);
    if head.rc == 2 && |head.buf| == 2 {
      var size := Length(head.buf);
      if 0 < size <= maxlen { NeverOverreads(head.rest, buf, 0, size, 0); }
    }
  }

  /** The round trip: net_recv returns the next message sent and leaves the stream at the following frame. */
  lemma {:induction false} ReceivesFrame(inc: Incoming, m: seq<byte>, tail: seq<byte>, buf: seq<byte>,
                                         maxlen: nat, scratch: seq<byte>)
    requires maxlen <= |buf| && |scratch| == 2 && Calm(inc.answers, false) && inc.stream == Frame(m) + tail
    requires |m| <= maxlen && |m| < 0x1_0000
    ensures var r := Receiving(inc, buf, maxlen, scratch);
            r.rc == |m| && r.buf == m + buf[|m|..] && r.rest.stream == tail && Calm(r.rest.answers, false)
  {
    hide Calm, Receiving, Header;
    HeaderGivesLength(|m|);
    CalmReceiving(inc, buf, maxlen, scratch, |m|);
    assert inc.stream[2..2 + |m|] == m && inc.stream[2 + |m|..] == tail;
  }

  /** Whatever the size of the buffers, a receiver stays in step with the sender, that is, takes exactly one
      frame without an error, if and only if the message fits 16 bits and the buffer. */
  lemma {:induction false} InStepIffFits(inc: Incoming, m: seq<byte>, tail: seq<byte>, buf: seq<byte>,
                                         maxlen: nat, scratch: seq<byte>)
    requires maxlen <= |buf| && |scratch| == 2 && Calm(inc.answers, false) && inc.stream == Frame(m) + tail
    ensures var r := Receiving(inc, buf, maxlen, scratch);
            r.rc >= 0 && r.rest.stream == tail <==> |m| < 0x1_0000 && |m| <= maxlen
  {
    hide Calm, Receiving, Header;
    HeaderGivesLength(|m|);
    CalmReceiving(inc, buf, maxlen, scratch, |m|);
    if |m| < 0x1_0000 {
      assert inc.stream[2 + |m|..] == tail;
    }
  }

  /** Two interruptions that are not harmless: before any data select() looks like the end of the stream, and
      after a short read the bytes of that read are counted twice. */
  lemma {:induction false} UntimelyInterruptions(buf: seq<byte>)
    requires |buf| == 2
    ensures Reading(Incoming([Interrupted], [7, 8]), buf, 0, 2, 0) == Received(0, buf, Incoming([], [7, 8]))
    ensures Reading(Incoming([Delivered(1), Interrupted], [7, 8]), buf, 0, 2, 0) ==
            Received(2, [7, buf[1]], Incoming([], [8]))
  {
    var inc := Incoming([Delivered(1), Interrupted], [7, 8]);
    assert Delivery(inc, 1, 2) == [7] && inc.Later().answers == [Interrupted];
    assert Splice(buf, 0, [7]) == [7, buf[1]];
    assert inc.stream[1..] == [8];
    assert [Interrupted][1..] == [];
  }

  // Sequences of messages

  function SendMany(out: Outgoing, ms: seq<seq<byte>>): Outgoing
    decreases |ms|
  {
    if ms == [] then out else SendMany(Sending(out, ms[0]).out, ms[1..])
  }

  /** What `n` calls of net_recv into the same buffer return: the messages and the input left. */
  function ReceiveMany(inc: Incoming, buf: seq<byte>, maxlen: nat, scratch: seq<byte>, n: nat): (seq<seq<byte>>,
                       Incoming)
    requires maxlen <= |buf| && |scratch| == 2
    decreases n
  {
    if n == 0 then ([], inc)
    else
      var r := Receiving(inc, buf, maxlen, scratch);
      if r.rc < 0 || |r.buf| != |buf| || r.rc > |buf| then ([], r.rest)
      else
        var more := ReceiveMany(r.rest, r.buf, maxlen, scratch, n - 1);
        ([r.buf[..r.rc]] + more.0, more.1)
  }

  lemma {:induction false} SendsFrames(out: Outgoing, ms: seq<seq<byte>>)
    requires forall a :: a in out.answers ==> !Breaks(a)
    ensures SendMany(out, ms).stream == out.stream + Frames(ms)
    decreases |ms|
  {
    hide Sending, Frame;
    if ms != [] {
      SendsFrame(out, ms[0]);
      SendsFrames(Sending(out, ms[0]).out, ms[1..]);
    }
  }

  lemma {:induction false} ReceivesFrames(inc: Incoming, ms: seq<seq<byte>>, tail: seq<byte>, buf: seq<byte>,
                                          maxlen: nat, scratch: seq<byte>)
    requires maxlen <= |buf| && |scratch| == 2 && Calm(inc.answers, false) && inc.stream == Frames(ms) + tail
    requires forall m :: m in ms ==> |m| < 0x1_0000 && |m| <= maxlen
    ensures var r := ReceiveMany(inc, buf, maxlen, scratch, |ms|); r.0 == ms && r.1.stream == tail
    decreases |ms|
  {
    hide Receiving, Frame, Calm;
    if ms != [] {
      assert inc.stream == Frame(ms[0]) + (Frames(ms[1..]) + tail);
      ReceivesFrame(inc, ms[0], Frames(ms[1..]) + tail, buf, maxlen, scratch);
      var r := Receiving(inc, buf, maxlen, scratch);
      ReceivesFrames(r.rest, ms[1..], tail, r.buf, maxlen, scratch);
    }
  }

  /** Any messages of less than 64 KiB, sent over any short and interrupted writes, arrive over any short
      and interrupted reads as they were sent, in order, and the stream is left right behind them. */
  lemma {:induction false} RoundTrip(ms: seq<seq<byte>>, sends: seq<SendAnswer>, recvs: seq<RecvAnswer>,
                                     tail: seq<byte>,
                                     buf: seq<byte>, maxlen: nat, scratch: seq<byte>)
    requires maxlen <= |buf| && |scratch| == 2 && Calm(recvs, false)
    requires forall a :: a in sends ==> !Breaks(a)
    requires forall m :: m in ms ==> |m| < 0x1_0000 && |m| <= maxlen
    ensures var wire := SendMany(Outgoing(sends, []), ms).stream;
            var r := ReceiveMany(Incoming(recvs, wire + tail), buf, maxlen, scratch, |ms|);
            r.0 == ms && r.1.stream == tail
  {
    hide Calm, ReceiveMany, SendMany, Frames;
    assert [] + Frames(ms) == Frames(ms);
    SendsFrames(Outgoing(sends, []), ms);
    ReceivesFrames(Incoming(recvs, Frames(ms) + tail), ms, tail, buf, maxlen, scratch);
  }

  /** A connected socket. */
  class Socket {
    var incoming: Incoming
    var outgoing: Outgoing

    /** The inner loop of read_nbytes: wait for data until recv() was not interrupted. A call that ends with
        an error yields it in `nread`, with `failed` set. */
    method AwaitData(ptr: array<byte>, at: nat, nleft: int, last: int) returns (nread: int, failed: bool)
      requires nleft > 0 && at + nleft <= ptr.Length && last >= -1
      modifies `incoming, ptr
      ensures |incoming.answers| <= old(|incoming.answers|)
      ensures Reading(old(incoming), old(ptr[..]), at, nleft, last) ==
              if failed || nread <= 0 then Received(nread, ptr[..], incoming)
              else Reading(incoming, ptr[..], at + nread, nleft - nread, nread)
      ensures !failed ==> nread >= 0
    {
      hide Splice;
      ghost var goal := Reading(incoming, ptr[..], at, nleft, last);
      nread, failed := last, false;
      while true
        invariant nread >= -1 && |incoming.answers| <= old(|incoming.answers|)
        invariant goal == Reading(incoming, ptr[..], at, nleft, nread)
        decreases |incoming.answers|
      {
        match incoming.Next()
        case Interrupted =>
          incoming := incoming.Later();
          if nread != -1 { return; }
        case SelectFailed(e) =>
          incoming := incoming.Later();
          return 0 - e, true;
        case TimedOut =>
          incoming := incoming.Later();
          return -ETIMEDOUT, true;
        case RecvAgain =>
          incoming := incoming.Later();
          nread := -1;
        case RecvFailed(e) =>
          incoming := incoming.Later();
          return 0 - e, true;
        case Delivered(most) =>
          var data := Delivery(incoming, most, nleft);
          var rest := incoming.Later().(stream := incoming.stream[|data|..]);
          ghost var was := ptr[..];
          assert goal == if data == [] then Received(0, was, rest)
                         else Reading(rest, Splice(was, at, data), at + |data|, nleft - |data|, |data|);
          Store(ptr, at, data);
          assert data == [] ==> ptr[..] == was;
          incoming := rest;
          return |data|, false;
      }
    }

    method ReadNBytes(ptr: array<byte>, nbytes: int) returns (rc: int)
      requires nbytes <= ptr.Length
      modifies `incoming, ptr
      ensures Received(rc, ptr[..], incoming) == Reading(old(incoming), old(ptr[..]), 0, nbytes, 0)
    {
      hide Splice;
      ghost var goal := Reading(incoming, ptr[..], 0, nbytes, 0);
      var nleft, nread, at := nbytes, 0, 0;
      while nleft > 0
        invariant 0 <= at && (nleft > 0 ==> at + nleft <= ptr.Length) && nread >= -1
        invariant at + nleft == nbytes
        invariant goal == Reading(incoming, ptr[..], at, nleft, nread)
        decreases |incoming.answers|, nleft
      {
        var failed;
        nread, failed := AwaitData(ptr, at, nleft, nread);
        if failed { return nread; }
        if nread == 0 { return 0; }
        nleft, at := nleft - nread, at + nread;
      }
      rc := nbytes - nleft;
    }

    /** recv() copies what it delivers to the caller's buffer. */
    method Store(ptr: array<byte>, at: nat, data: seq<byte>)
      requires at + |data| <= ptr.Length
      modifies ptr
      ensures ptr[..] == Splice(old(ptr[..]), at, data)
      ensures data == [] ==> ptr[..] == old(ptr[..])
    {
      forall i | 0 <= i < |data| { ptr[at + i] := data[i]; }
    }

    method WriteNBytes(data: seq<byte>) returns (rc: int)
      modifies `outgoing
      ensures Sent(rc, outgoing) == Writing(old(outgoing), data, 0)
    {
      ghost var goal := Writing(outgoing, data, 0);
      var nleft := |data|;
      while nleft > 0
        invariant 0 <= nleft <= |data| && goal == Writing(outgoing, data, |data| - nleft)
        decreases |outgoing.answers|, nleft
      {
        var at := |data| - nleft;
        if outgoing.answers == [] {
          outgoing := outgoing.(stream := outgoing.stream + data[at..]);
          nleft := 0;
        } else {
          var answer := outgoing.answers[0];
          outgoing := outgoing.(answers := outgoing.answers[1..]);
          match answer {
            case SendAgain =>
            case SendEof => return |data| - nleft;
            case SendFailed(e) => return 0 - e;
            case Accepted(count) =>
              var nwritten := Min(if count == 0 then 1 else count, nleft);
              outgoing := outgoing.(stream := outgoing.stream + data[at..at + nwritten]);
              nleft := nleft - nwritten;
          }
        }
      }
      rc := |data| - nleft;
    }

    method NetRecv(buff: array<byte>, maxlen: nat, scratch: seq<byte>) returns (rc: int)
      requires maxlen <= buff.Length && |scratch| == 2
      modifies `incoming, buff
      ensures Received(rc, buff[..], incoming) == Receiving(old(incoming), old(buff[..]), maxlen, scratch)
    {
      hide Reading;
      var pktsiz := new byte[] [scratch[0], scratch[1]];
      assert pktsiz[..] == scratch;
      rc := ReadNBytes(pktsiz, 2);
      if rc <= 0 { return; }
      if rc != 2 { return -EINVAL; }
      var size := Length(pktsiz[..]);
      if size > maxlen { return -EINVAL; }
      if size == 0 { return 0; }
      rc := ReadNBytes(buff, size);
      if rc <= 0 { return; }
      if rc != size { return -EINVAL; }
    }

    method NetSend(data: seq<byte>) returns (rc: int)
      modifies `outgoing
      ensures Sent(rc, outgoing) == Sending(old(outgoing), data)
    {
      hide Writing;
      rc := WriteNBytes(Header(|data|));
      if rc <= 0 { return; }
      if rc != 2 { return -EINVAL; }
      rc := WriteNBytes(data);
      if rc <= 0 { return; }
      if rc != |data| { return -EINVAL; }
    }
  }
}
