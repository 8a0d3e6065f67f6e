/** NUL-terminated strings in byte arrays: src/lib/asys.c and src/lib/memmove.c, and the library calls that
    src/cgi/upsfetch.c makes on its buffer. */
module CString {
  import opened Framing

  /** The string that starts at the front of `s`: everything before the first NUL. */
  function Text(s: seq<byte>): seq<byte> {
    if s == [] || s[0] == 0 then [] else [s[0]] + Text(s[1..])
  }

  /** Messages that a client with room for `max` bytes can receive as strings. */
  predicate Receivable(ms: seq<seq<byte>>, max: nat) {
    max < 0x1_0000 && forall m :: m in ms ==> 0 < |m| <= max && 0 !in m
  }

  /** The string is the longest prefix without a NUL. */
  lemma {:induction false} TextIsPrefix(s: seq<byte>)
    ensures Text(s) <= s && 0 !in Text(s)
    ensures |Text(s)| < |s| ==> s[|Text(s)|] == 0
  {
    if s != [] && s[0] != 0 {
      TextIsPrefix(s[1..]);
    }
  }

  lemma {:induction false} TextEndsAtNul(s: seq<byte>, n: nat)
    requires n <= |s| && (n < |s| ==> s[n] == 0) && forall i :: 0 <= i < n ==> s[i] != 0
    ensures Text(s) == s[..n]
  {
    if n > 0 {
      TextEndsAtNul(s[1..], n - 1);
    }
  }

  lemma {:induction false} TextStops(s: seq<byte>, n: nat)
    requires n <= |Text(s)| && n <= |s| && (n == |s| || s[n] == 0)
    ensures |Text(s)| == n
  {
    if n > 0 {
      TextStops(s[1..], n - 1);
    }
  }

  /** Bytes written over the front of a terminated text, with a NUL behind them, become the text. */
  lemma {:induction false} TextOfParts(t: seq<byte>, rest: seq<byte>)
    requires 0 !in t
    ensures Text(t + [0] + rest) == t && Text(t) == t
  {
    var s := t + [0] + rest;
    assert forall i :: 0 <= i < |t| ==> s[i] == t[i];
    TextEndsAtNul(s, |t|);
    assert s[..|t|] == t;
    TextEndsAtNul(t, |t|);
    assert t[..|t|] == t;
  }

  /** Terminating a message ends its text there, unless it ended before. */
  lemma {:induction false} Terminated(m: seq<byte>, rest: seq<byte>)
    ensures Text(m + [0] + rest) == Text(m) && 0 in m + [0] + rest
  {
    TextIsPrefix(m);
    var t, s := Text(m), m + [0] + rest;
    assert s[|m|] == 0;
    assert s[..|t|] == t;
    assert forall i :: 0 <= i < |t| ==> s[i] == t[i];
    TextEndsAtNul(s, |t|);
  }

  /** Characters written behind the text of `was`, with a NUL, prolong the text. */
  lemma {:induction false} AppendText(was: seq<byte>, t: seq<byte>, add: seq<byte>)
    requires t <= was && 0 !in t && 0 !in add && |t| + |add| < |was|
    ensures var now := Splice(was, |t|, add + [0]); 0 in now && Text(now) == t + add
  {
    var now, rest := Splice(was, |t|, add + [0]), was[|t| + |add| + 1..];
    assert now == (t + add) + [0] + rest;
    TextOfParts(t + add, rest);
    assert now[|t| + |add|] == 0;
  }

  lemma SpliceNul(was: seq<byte>, at: nat, data: seq<byte>)
    requires at + |data| < |was|
    ensures Splice(was, at, data)[at + |data| := 0] == Splice(was, at, data + [0])
  {
  }

  method StrLen(s: array<byte>) returns (n: nat)
    requires 0 in s[..]
    ensures n == |Text(s[..])| && n < s.Length
  {
    ghost var k :| 0 <= k < s.Length && s[k] == 0;
    n := 0;
    while s[n] != 0
      invariant n <= k && forall i :: 0 <= i < n ==> s[i] != 0
      decreases k - n
    {
      n := n + 1;
    }
    TextEndsAtNul(s[..], n);
  }

  /** The copying loop of strlcpy: at most `limit` characters, not terminated. */
  method CopyText(dst: array<byte>, at: nat, src: array<byte>, limit: nat) returns (cnt: nat)
    requires dst != src && 0 in src[..] && at + limit <= dst.Length
    modifies dst
    ensures cnt == Min(|Text(src[..])|, limit) && cnt <= src.Length
    ensures dst[..] == Splice(old(dst[..]), at, src[..cnt])
  {
    TextIsPrefix(src[..]);
    cnt := 0;
    while src[cnt] != 0 && cnt < limit
      invariant cnt <= |Text(src[..])| && cnt <= limit
      invariant dst[..] == Splice(old(dst[..]), at, src[..cnt])
      decreases limit - cnt
    {
      dst[at + cnt] := src[cnt];
      cnt := cnt + 1;
    }
  }

  /** Copies what fits into `size` bytes at `at` and terminates it; returns the length of the whole source. */
  method StrlCpy(dst: array<byte>, at: nat, src: array<byte>, size: nat) returns (cnt: nat)
    requires dst != src && 0 in src[..] && at + size <= dst.Length
    modifies dst
    ensures cnt == |Text(src[..])|
    ensures var text := Text(src[..]);
            dst[..] == if size == 0 then old(dst[..])
                       else Splice(old(dst[..]), at, text[..Min(|text|, size - 1)] + [0])
  {
    hide Text, Splice;
    TextIsPrefix(src[..]);
    cnt := 0;
    if size != 0 {
      ghost var was := dst[..];
      cnt := CopyText(dst, at, src, size - 1);
      assert Text(src[..])[..cnt] == src[..cnt];
      SpliceNul(was, at, src[..cnt]);
      dst[at + cnt] := 0;
    }
    while src[cnt] != 0
      invariant cnt <= |Text(src[..])|
      decreases |Text(src[..])| - cnt
    {
      cnt := cnt + 1;
    }
  }

  /** The text of the destination is prolonged by what fits into `size` bytes, counting the NUL. The first
      loop looks at the byte before it looks at the size. */
  method StrlCat(dst: array<byte>, src: array<byte>, size: nat) returns (cnt: nat)
    requires dst != src && 0 in src[..] && size <= dst.Length
    requires 0 in dst[..] || size < dst.Length
    modifies dst
    ensures var kept, text := Text(old(dst[..])), Text(src[..]);
            if |kept| >= size then dst[..] == old(dst[..]) && cnt == size + |text|
            else cnt == |kept| + |text| &&
                 dst[..] == Splice(old(dst[..]), |kept|, text[..Min(|text|, size - 1 - |kept|)] + [0])
  {
    hide Text, Splice;
    ghost var text := Text(dst[..]);
    TextIsPrefix(dst[..]);
    cnt := 0;
    while dst[cnt] != 0 && cnt < size
      invariant cnt <= size && cnt <= |text| && (cnt == dst.Length ==> false)
      decreases size - cnt
    {
      cnt := cnt + 1;
    }
    var more := StrlCpy(dst, cnt, src, size - cnt);
    cnt := cnt + more;
  }

  /** strncat: at most `n` characters are appended, and then a NUL. */
  method StrnCat(dst: array<byte>, src: array<byte>, n: nat)
    requires dst != src && 0 in src[..] && 0 in dst[..] && |Text(dst[..])| + n < dst.Length
    modifies dst
    ensures Text(dst[..]) == Text(old(dst[..])) + Text(src[..])[..Min(|Text(src[..])|, n)]
    ensures 0 in dst[..]
  {
    hide Text, Splice;
    ghost var was, text, add := dst[..], Text(dst[..]), Text(src[..]);
    TextIsPrefix(was);
    TextIsPrefix(src[..]);
    var at := StrLen(dst);
    var cnt := CopyText(dst, at, src, n);
    SpliceNul(was, at, src[..cnt]);
    dst[at + cnt] := 0;
    assert src[..cnt] == add[..cnt];
    AppendText(was, text, add[..cnt]);
  }

  /** memcpy: the ranges belong to different arrays. */
  method MemCpy(dst: array<byte>, at: nat, src: array<byte>, n: nat)
    requires dst != src && n <= src.Length && at + n <= dst.Length
    modifies dst
    ensures dst[..] == Splice(old(dst[..]), at, src[..n])
  {
    forall i | 0 <= i < n { dst[at + i] := src[i]; }
  }

  lemma SpliceNone(was: seq<byte>, at: nat, data: seq<byte>)
    requires data == [] && at <= |was|
    ensures Splice(was, at, data) == was
  {
  }

  lemma SpliceElsewhere(was: seq<byte>, at: nat, data: seq<byte>, i: nat)
    requires at + |data| <= |was| && i < |was| && !(at <= i < at + |data|)
    ensures Splice(was, at, data)[i] == was[i]
  {
  }

  /** One more byte of the source range, behind the `k` that were copied. */
  lemma CopyOne(was: seq<byte>, dst: nat, src: nat, k: nat)
    requires dst + k < |was| && src + k < |was|
    ensures Splice(was, dst, was[src..src + k])[dst + k := was[src + k]] == Splice(was, dst, was[src..src + k + 1])
  {
  }

  /** The two loops of memmove. */
  method CopyBackward(a: array<byte>, dst: nat, src: nat, n: nat)
    requires src < dst < src + n && dst + n <= a.Length
    modifies a
    ensures a[..] == Splice(old(a[..]), dst, old(a[src..src + n]))
  {
    var s, d := src + n, dst + n;
    while d > dst
      invariant dst <= d <= dst + n && s - src == d - dst
      invariant forall i :: d <= i < dst + n ==> a[i] == old(a[i - dst + src])
      invariant forall i :: 0 <= i < a.Length && !(d <= i < dst + n) ==> a[i] == old(a[i])
    {
      d, s := d - 1, s - 1;
      a[d] := a[s];
    }
  }

  method CopyForward(a: array<byte>, dst: nat, src: nat, n: nat)
    requires !(src < dst < src + n) && src + n <= a.Length && dst + n <= a.Length
    modifies a
    ensures a[..] == Splice(old(a[..]), dst, old(a[src..src + n]))
  {
    hide Splice;
    ghost var was := a[..];
    SpliceNone(was, dst, was[src..src]);
    var s, d := src, dst;
    while d < dst + n
      invariant dst <= d <= dst + n && s - src == d - dst
      invariant a[..] == Splice(was, dst, was[src..s])
    {
      CopyOne(was, dst, src, d - dst);
      SpliceElsewhere(was, dst, was[src..s], s);
      assert a[s] == was[s];
      a[d] := a[s];
      d, s := d + 1, s + 1;
    }
  }

  /** Both ranges lie in `a`, starting at `dst` and `src`. They may overlap: the copy runs backwards when it
      would otherwise overwrite bytes that it has yet to read. A negative count copies nothing. */
  method MemMove(a: array<byte>, dst: nat, src: nat, n: int)
    requires n > 0 ==> dst + n <= a.Length && src + n <= a.Length
    modifies a
    ensures a[..] == if n <= 0 then old(a[..]) else Splice(old(a[..]), dst, old(a[src..src + n]))
  {
    if n > 0 {
      if dst > src && dst < src + n {
        CopyBackward(a, dst, src, n);
      } else {
        CopyForward(a, dst, src, n);
      }
    }
  }
}
