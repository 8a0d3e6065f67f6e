/** The receiving end in src/cgi/upsfetch.c: the status report and the event history are collected in one
    fixed buffer, the events newest first. */
module NisClient {
  import opened Framing
  import opened CString
  import opened StatusReport

  const STATBUF := 4096

  /** What a buffer of STATBUF bytes can keep of a text. */
  function Kept(t: seq<byte>): (r: seq<byte>)
    ensures r <= t && |r| == if |t| < 4095 then |t| else 4095
  { t[..Min(|t|, STATBUF - 1)] }

  /** The connection delivers the messages `ms` and the end mark before `tail`, in time and unbroken. */
  ghost predicate Arriving(inc: Incoming, ms: seq<seq<byte>>, tail: seq<byte>) {
    Calm(inc.answers, false) && inc.stream == Frames(ms) + (Frame([]) + tail)
  }

  lemma {:induction false} NextMessage(inc: Incoming, ms: seq<seq<byte>>, tail: seq<byte>, buf: seq<byte>,
                                       max: nat, scratch: seq<byte>)
    requires Arriving(inc, ms, tail) && Receivable(ms, max) && max <= |buf| && |scratch| == 2
    ensures var r := Receiving(inc, buf, max, scratch);
            if ms == [] then r.rc == 0 && r.rest.stream == tail
            else r.rc == |ms[0]| && ms[0] <= r.buf && Arriving(r.rest, ms[1..], tail)
  {
    hide Receiving, Frame, Calm;
    if ms == [] {
      assert inc.stream == Frame([]) + tail;
      ReceivesFrame(inc, [], tail, buf, max, scratch);
    } else {
      var more := Frames(ms[1..]) + (Frame([]) + tail);
      assert ms[0] in ms && inc.stream == Frame(ms[0]) + more;
      ReceivesFrame(inc, ms[0], more, buf, max, scratch);
    }
  }

  lemma KeptAppend(t: seq<byte>, m: seq<byte>)
    ensures Kept(Kept(t) + m) == Kept(t + m)
  {
  }

  lemma KeptPrepend(m: seq<byte>, t: seq<byte>)
    ensures Kept(m + Kept(t)) == Kept(m + t)
  {
  }

  lemma EmptyText(s: seq<byte>)
    requires s != [] && s[0] == 0
    ensures Text(s) == [] && 0 in s
  {
    assert s[0] in s;
  }

  /** One more of the messages `ms` has been kept. */
  lemma {:induction false} OneMoreKept(ms: seq<seq<byte>>, k: nat)
    requires k < |ms| && Receivable(ms, 999)
    ensures Kept(Kept(Concat(ms[..k])) + Text(ms[k])) == Kept(Concat(ms[..k + 1]))
  {
    hide Kept, Text, Concat;
    assert ms[k] in ms;
    TextOfParts(ms[k], []);
    assert ms[..k + 1] == ms[..k] + [ms[k]];
    ConcatAppend(ms[..k], ms[k]);
    KeptAppend(Concat(ms[..k]), ms[k]);
  }

  /** statbuf and statlen */
  class FetchBuffer {
    const statbuf: array<byte>
    var statlen: nat

    ghost function Contents(): seq<byte>
      reads this, statbuf
    {
      Text(statbuf[..])
    }

    ghost predicate Valid()
      reads this, statbuf
    {
      statbuf.Length == STATBUF && 0 in statbuf[..] && statlen == |Contents()|
    }

    method Clear()
      requires statbuf.Length == STATBUF
      modifies `statlen, statbuf
      ensures Valid() && Contents() == []
    {
      statbuf[0] := 0;
      EmptyText(statbuf[..]);
      statlen := 0;
    }

    /** The first `n` bytes of `buf`, as a string, are appended as far as there is room. */
    method Append(buf: array<byte>, n: nat)
      requires Valid() && buf != statbuf && n < buf.Length
      modifies `statlen, statbuf, buf
      ensures Valid() && Contents() == Kept(old(Contents()) + Text(old(buf[..n])))
    {
      hide Text;
      ghost var m := buf[..n];
      ghost var was := Contents();
      TextIsPrefix(statbuf[..]);
      buf[n] := 0;
      assert buf[..] == m + [0] + buf[n + 1..];
      Terminated(m, buf[n + 1..]);
      StrnCat(statbuf, buf, STATBUF - statlen - 1);
      assert Kept(was + Text(m)) == was + Text(m)[..Min(|Text(m)|, STATBUF - |was| - 1)];
      statlen := StrLen(statbuf);
    }

    /** Sends "status" to request the status report and collects its messages. If `ms` is what arrives, the
        buffer holds the first 4095 bytes of it. */
    method FillBuffer(sock: Socket, scratch: seq<byte>, ghost ms: seq<seq<byte>>,
                      ghost tail: seq<byte>) returns (stat: int)
      requires statbuf.Length == STATBUF && |scratch| == 2
      modifies `statlen, statbuf, sock
      ensures sock.outgoing == old(Sending(sock.outgoing, [115, 116, 97, 116, 117, 115]).out)
      ensures old(Sending(sock.outgoing, [115, 116, 97, 116, 117, 115]).rc) != 6 ==> stat == 0 && Contents() == []
      ensures Valid()
      ensures (forall a :: a in old(sock.outgoing.answers) ==> !Breaks(a)) &&
              old(Arriving(sock.incoming, ms, tail)) && Receivable(ms, 999) ==>
                stat == 1 && Contents() == Kept(Concat(ms)) && sock.incoming.stream == tail
    {
      hide Sending, Receiving, Text, Arriving, Receivable, Kept, Concat;
      var buf := new byte[1000];
      Clear();
      SendsFrame(sock.outgoing, [115, 116, 97, 116, 117, 115]);
      var n := sock.NetSend([115, 116, 97, 116, 117, 115]);
      if n != 6 { return 0; }
      ghost var sound := Arriving(sock.incoming, ms, tail) && Receivable(ms, 999);
      ghost var k := 0;
      assert sound ==> Kept(Concat(ms[..0])) == [] by { NothingKept(ms); }
      while true
        invariant Valid() && buf != statbuf && buf.Length == 1000
        invariant sock.outgoing == old(Sending(sock.outgoing, [115, 116, 97, 116, 117, 115]).out)
        invariant sound ==> k <= |ms| && Arriving(sock.incoming, ms[k..], tail) && Contents() == Kept(Concat(ms[..k]))
        decreases |sock.incoming.stream|
      {
        ReceivingBounds(sock.incoming, buf[..], 999, scratch);
        if sound {
          Suffixes(ms, k, 999);
          NextMessage(sock.incoming, ms[k..], tail, buf[..], 999, scratch);
        }
        n := sock.NetRecv(buf, 999, scratch);
        if n <= 0 { break; }
        assert sound ==> buf[..n] == ms[k];
        Append(buf, n);
        if sound {
          OneMoreKept(ms, k);
          k := k + 1;
        }
      }
      stat := if n < 0 then 0 else 1;
      assert ms[..|ms|] == ms;
    }

    /** Puts the first `n` bytes of `buf`, as a string, in front of what is there. */
    method Prepend(buf: array<byte>, n: nat)
      requires statbuf.Length == STATBUF && 0 in statbuf[..] && buf != statbuf && n < buf.Length
      modifies statbuf, buf
      ensures 0 in statbuf[..] && Contents() == Kept(Text(old(buf[..n])) + old(Contents()))
    {
      hide Text, Splice, Kept;
      ghost var m, was := buf[..n], statbuf[..];
      buf[n] := 0;
      assert buf[..] == m + [0] + buf[n + 1..];
      Terminated(m, buf[n + 1..]);
      TextIsPrefix(buf[..]);
      var len := StrLen(buf);
      if len > STATBUF - 1 { len := STATBUF - 1; }
      MemMove(statbuf, len, 0, STATBUF - len - 1);
      if len == STATBUF - 1 { SpliceNone(was, len, was[0..0]); }
      MemCpy(statbuf, 0, buf, len);
      statbuf[STATBUF - 1] := 0;
      assert buf[..len] == Text(m)[..len];
      PrependText(was, Text(m), len);
    }

    /** Sends "events" to request the events and collects them, the latest first. If `ms` is what arrives, the
        buffer holds the first 4095 bytes of the messages in reverse order. */
    method FetchEvents(sock: Socket, scratch: seq<byte>, ghost ms: seq<seq<byte>>,
                       ghost tail: seq<byte>) returns (stat: int)
      requires statbuf.Length == STATBUF && |scratch| == 2
      modifies `statlen, statbuf, sock
      ensures sock.outgoing == old(Sending(sock.outgoing, [101, 118, 101, 110, 116, 115]).out)
      ensures old(Sending(sock.outgoing, [101, 118, 101, 110, 116, 115]).rc) != 6 ==> stat == 0 && Contents() == []
      ensures 0 in statbuf[..]
      ensures (forall a :: a in old(sock.outgoing.answers) ==> !Breaks(a)) &&
              old(Arriving(sock.incoming, ms, tail)) && Receivable(ms, 499) ==>
                stat == 1 && Contents() == Kept(Concat(Backwards(ms))) && sock.incoming.stream == tail
    {
      hide Sending, Receiving, Text, Arriving, Receivable, Kept, NewestFirst, Concat, Backwards;
      NewestFirstIsBackwards(ms);
      var buf := new byte[500];
      Clear();
      SendsFrame(sock.outgoing, [101, 118, 101, 110, 116, 115]);
      var n := sock.NetSend([101, 118, 101, 110, 116, 115]);
      if n != 6 { return 0; }
      ghost var sound := Arriving(sock.incoming, ms, tail) && Receivable(ms, 499);
      ghost var k := 0;
      assert sound ==> Kept(NewestFirst(ms[..0])) == [] by { NothingKept(ms); }
      while true
        invariant 0 in statbuf[..] && buf != statbuf && buf.Length == 500
        invariant sock.outgoing == old(Sending(sock.outgoing, [101, 118, 101, 110, 116, 115]).out)
        invariant sound ==> k <= |ms| && Arriving(sock.incoming, ms[k..], tail)
        invariant sound ==> Contents() == Kept(NewestFirst(ms[..k]))
        decreases |sock.incoming.stream|
      {
        ReceivingBounds(sock.incoming, buf[..], 499, scratch);
        if sound {
          Suffixes(ms, k, 499);
          NextMessage(sock.incoming, ms[k..], tail, buf[..], 499, scratch);
        }
        n := sock.NetRecv(buf, 499, scratch);
        if n <= 0 { break; }
        assert sound ==> buf[..n] == ms[k];
        Prepend(buf, n);
        if sound {
          OneNewer(ms, k);
          k := k + 1;
        }
      }
      stat := if n < 0 then 0 else 1;
      assert ms[..|ms|] == ms;
    }
  }

  /** What moving the buffer back by `len` bytes, copying the text in front and ending the buffer comes to. */
  lemma {:induction false} PrependText(was: seq<byte>, t: seq<byte>, len: nat)
    requires |was| == STATBUF && 0 in was && 0 !in t && len == Min(|t|, STATBUF - 1)
    ensures var now := Splice(Splice(was, len, was[0..STATBUF - len - 1]), 0, t[..len])[STATBUF - 1 := 0];
            0 in now && Text(now) == Kept(t + Text(was))
  {
    hide Text;
    var now := Splice(Splice(was, len, was[0..STATBUF - len - 1]), 0, t[..len])[STATBUF - 1 := 0];
    assert now == t[..len] + was[..STATBUF - 1 - len] + [0];
    TextIsPrefix(was);
    var all := Kept(t + Text(was));
    assert now[STATBUF - 1] == 0;
    assert 0 !in all;
    assert all <= now;
    TextEndsAtNul(now, |all|);
  }

  /** The messages in reverse order. */
  function NewestFirst(ms: seq<seq<byte>>): seq<byte> {
    if ms == [] then [] else ms[|ms| - 1] + NewestFirst(ms[..|ms| - 1])
  }

  function Backwards(ms: seq<seq<byte>>): seq<seq<byte>> {
    seq(|ms|, i requires 0 <= i < |ms| => ms[|ms| - 1 - i])
  }

  lemma {:induction false} NewestFirstIsBackwards(ms: seq<seq<byte>>)
    ensures NewestFirst(ms) == Concat(Backwards(ms))
  {
    if ms != [] {
      var n := |ms| - 1;
      NewestFirstIsBackwards(ms[..n]);
      assert Backwards(ms) == [ms[n]] + Backwards(ms[..n]);
    }
  }

  lemma {:induction false} OneNewer(ms: seq<seq<byte>>, k: nat)
    requires k < |ms| && Receivable(ms, 499)
    ensures Kept(Text(ms[k]) + Kept(NewestFirst(ms[..k]))) == Kept(NewestFirst(ms[..k + 1]))
  {
    hide Kept, Text;
    assert ms[k] in ms;
    TextOfParts(ms[k], []);
    assert ms[..k + 1][..k] == ms[..k];
    KeptPrepend(ms[k], NewestFirst(ms[..k]));
  }

  lemma NothingKept(ms: seq<seq<byte>>)
    ensures Kept(Concat(ms[..0])) == [] && Kept(NewestFirst(ms[..0])) == []
  {
  }

  lemma Suffixes(ms: seq<seq<byte>>, k: nat, max: nat)
    requires k <= |ms| && Receivable(ms, max)
    ensures Receivable(ms[k..], max) && (k < |ms| ==> ms[k..][0] == ms[k] && ms[k..][1..] == ms[k + 1..])
  {
  }
}
