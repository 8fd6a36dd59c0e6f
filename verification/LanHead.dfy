/** The buffered reader of an HTTP request head: it must not depend on how the stream is cut into reads. */
module LanHead {
  import opened Common

  const MAX_HEAD_BYTES: nat := 8192
  const HEAD_READ_BUFFER: nat := 1024
  const TERMINATOR: seq<byte> := [13, 10, 13, 10]

  predicate TerminatorAt(s: seq<byte>, k: nat) {
    k + 4 <= |s| && s[k] == 13 && s[k + 1] == 10 && s[k + 2] == 13 && s[k + 3] == 10
  }

  predicate FirstTerminatorAt(s: seq<byte>, k: nat) {
    TerminatorAt(s, k) && forall j: nat :: j < k ==> !TerminatorAt(s, j)
  }

  /** A terminator is CR LF CR LF. */
  lemma TerminatorsStand(s: seq<byte>, k: nat)
    ensures TerminatorAt(s, k) <==> StandsAt(s, k, [13, 10, 13, 10])
  {
    if k + 4 <= |s| {
      var part := s[k..k + 4];
      assert part[0] == s[k] && part[1] == s[k + 1] && part[2] == s[k + 2] && part[3] == s[k + 3];
    }
  }

  function Min(a: nat, b: nat): nat { if a < b then a else b }

  /** `windows(4).position(..)`. */
  method FindTerminator(s: seq<byte>) returns (found: Option<nat>)
    ensures found.Some? ==> FirstTerminatorAt(s, found.value)
    ensures found.None? ==> forall k: nat :: !TerminatorAt(s, k)
  {
    var k: nat := 0;
    while k + 4 <= |s|
      invariant forall j: nat :: j < k ==> !TerminatorAt(s, j)
      decreases |s| - k
    {
      if TerminatorAt(s, k) {
        return Some(k);
      }
      k := k + 1;
    }
    found := None;
  }

  /** A terminator in a window of the stream is one in the stream, and the other way round. */
  lemma WindowTerminators(s: seq<byte>, from: nat, to: nat, k: nat)
    requires from <= to <= |s|
    ensures TerminatorAt(s[from..to], k) <==> from + k + 4 <= to && TerminatorAt(s, from + k)
  {}

  /** What one read returns: at least one byte and at most `take`, or nothing at the end of the stream. */
  function ReadCount(wanted: nat, take: nat, left: nat): nat {
    if left == 0 then 0 else if wanted == 0 then 1 else Min(wanted, Min(take, left))
  }

  /** No terminator lies within the first `n` bytes. */
  ghost predicate Clean(s: seq<byte>, n: nat) {
    forall k: nat :: k + 4 <= n ==> !TerminatorAt(s, k)
  }

  /** The right answer after `consumed` bytes, given as head and pipelined bytes. */
  ghost predicate IsHead(stream: seq<byte>, consumed: nat, head: seq<byte>, pipelined: seq<byte>) {
    && FirstTerminatorAt(stream, |head|)
    && |head| + 4 <= consumed <= Min(|stream|, 8192)
    && head + TERMINATOR + pipelined == stream[..consumed]
  }

  /**
   `stream` is everything the client will ever send, `sizes` how the network happens to cut it: the n-th read
   offers `sizes(n)` bytes.  The answer does not depend on `sizes`, except for how much was read beyond the head.
   */
  method ReadHead(stream: seq<byte>, sizes: nat -> nat)
    returns (result: Option<(seq<byte>, seq<byte>)>, consumed: nat)
    ensures result.Some? <==> exists k: nat :: TerminatorAt(stream, k) && k + 4 <= 8192
    ensures result.Some? ==> IsHead(stream, consumed, result.value.0, result.value.1)
    ensures result.None? ==> consumed == Min(|stream|, 8192)
  {
    consumed := 0;
    var head: seq<byte> := [];
    var turn: nat := 0;
    while true
      invariant consumed <= Min(|stream|, MAX_HEAD_BYTES) && head == stream[..consumed]
      invariant Clean(stream, consumed)
      decreases MAX_HEAD_BYTES - consumed
    {
      var scanned := if |head| < 3 then 0 else |head| - 3;
      if |head| >= MAX_HEAD_BYTES {
        return None, consumed;
      }
      var take := Min(MAX_HEAD_BYTES - |head|, HEAD_READ_BUFFER);
      var count := ReadCount(sizes(turn), take, |stream| - consumed);
      turn := turn + 1;
      if count == 0 {
        return None, consumed;
      }
      head := head + stream[consumed..consumed + count];
      consumed := consumed + count;
      assert head == stream[..consumed] && head[scanned..] == stream[scanned..consumed];
      var found := FindTerminator(head[scanned..]);
      if found.Some? {
        var end := scanned + found.value;
        FoundIsHead(stream, scanned, consumed, found.value);
        return Some((head[..end], head[end + 4..])), consumed;
      }
      NotFoundIsClean(stream, scanned, consumed);
    }
  }

  lemma FoundIsHead(stream: seq<byte>, scanned: nat, consumed: nat, k: nat)
    requires scanned <= consumed <= Min(|stream|, MAX_HEAD_BYTES)
    requires FirstTerminatorAt(stream[scanned..consumed], k) && Clean(stream, scanned + 3)
    ensures var end, head := scanned + k, stream[..consumed];
      && end + 4 <= consumed
      && IsHead(stream, consumed, head[..end], head[end + 4..])
  {
    FirstInStream(stream, scanned, consumed, k);
    var end, head := scanned + k, stream[..consumed];
    assert head[end..end + 4] == TERMINATOR;
    assert head == head[..end] + head[end..end + 4] + head[end + 4..];
  }

  lemma NotFoundIsClean(stream: seq<byte>, scanned: nat, consumed: nat)
    requires scanned <= consumed <= |stream| && Clean(stream, scanned + 3)
    requires forall k: nat :: !TerminatorAt(stream[scanned..consumed], k)
    ensures Clean(stream, consumed)
  {
    forall k: nat | k + 4 <= consumed ensures !TerminatorAt(stream, k) {
      if k >= scanned {
        WindowTerminators(stream, scanned, consumed, k - scanned);
      }
    }
  }

  lemma FirstInStream(s: seq<byte>, from: nat, to: nat, k: nat)
    requires from <= to <= |s| && FirstTerminatorAt(s[from..to], k)
    requires Clean(s, from + 3)
    ensures from + k + 4 <= to && FirstTerminatorAt(s, from + k)
  {
    WindowTerminators(s, from, to, k);
    forall j: nat | j < from + k ensures !TerminatorAt(s, j) {
      if j >= from {
        WindowTerminators(s, from, to, j - from);
      }
    }
  }

  /** Chunking independence: two readings of one stream, however it was cut, yield the same head. */
  lemma HeadIsUnique(stream: seq<byte>, c: nat, head: seq<byte>, rest: seq<byte>, c': nat, head': seq<byte>, rest': seq<byte>)
    requires IsHead(stream, c, head, rest) && IsHead(stream, c', head', rest')
    ensures head == head'
    ensures c <= c' ==> rest <= rest'
  {
    assert TerminatorAt(stream, |head|) && TerminatorAt(stream, |head'|);
    assert |head| == |head'|;
    assert head == stream[..c][..|head|] && head' == stream[..c'][..|head'|];
    assert rest == stream[..c][|head| + 4..] && rest' == stream[..c'][|head'| + 4..];
  }
}
