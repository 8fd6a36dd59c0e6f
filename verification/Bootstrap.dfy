/** The bootstrap query: a host name as one DNS question. */
module Bootstrap {
  import opened Common
  import opened DnsNames
  import opened DnsMessages

  const DOT: byte := 46
  const MAX_HOST: nat := 253

  // ---------------------------------------------------------------------------------------
  // Host names and labels
  // ---------------------------------------------------------------------------------------

  /** The index of the first dot from `i` on, or the length if there is none. */
  function FirstDot(host: seq<byte>, i: nat): (d: nat)
    requires i <= |host|
    ensures i <= d <= |host| && (d < |host| ==> host[d] == DOT)
    ensures forall j :: i <= j < d ==> host[j] != DOT
    decreases |host| - i
  {
    if i == |host| || host[i] == DOT then i else FirstDot(host, i + 1)
  }

  /** Splitting at every dot; there is always at least one part. */
  function SplitDots(host: seq<byte>): (labels: seq<Label>)
    ensures labels != []
    decreases |host|
  {
    var i := FirstDot(host, 0);
    if i == |host| then [Label(host)] else [Label(host[..i])] + SplitDots(host[i + 1..])
  }

  /** Labels from the `k`-th on with dots between them. */
  function Dotted(labels: seq<Label>, k: nat): seq<byte>
    requires k < |labels|
    decreases |labels| - k
  {
    if k + 1 == |labels| then labels[k].bytes else labels[k].bytes + [DOT] + Dotted(labels, k + 1)
  }

  predicate HostByte(b: byte) {
    48 <= b <= 57 || 65 <= b <= 90 || 97 <= b <= 122 || b == 45
  }

  predicate HostLabel(l: Label) {
    0 < |l.bytes| <= MAX_LABEL && forall i :: 0 <= i < |l.bytes| ==> HostByte(l.bytes[i])
  }

  /** One trailing dot is dropped. */
  function Bare(host: seq<byte>): seq<byte> {
    if host != [] && host[|host| - 1] == DOT then host[..|host| - 1] else host
  }

  predicate Accepted(host: seq<byte>) {
    && 0 < |Bare(host)| <= MAX_HOST
    && forall i :: 0 <= i < |SplitDots(Bare(host))| ==> HostLabel(SplitDots(Bare(host))[i])
  }

  // ---------------------------------------------------------------------------------------
  // The query
  // ---------------------------------------------------------------------------------------

  function Preamble(t0: byte, t1: byte): seq<byte> {
    [t0, t1, 1, 0, 0, 1, 0, 0, 0, 0, 0, 0]
  }

  function Trailer(kind: nat): seq<byte>
    requires kind < 65536
  {
    [kind / 256, kind % 256, 0, 1]
  }

  lemma HostLabelsAreEncodable(labels: seq<Label>)
    requires forall i :: 0 <= i < |labels| ==> HostLabel(labels[i])
    ensures forall i :: 0 <= i < |labels| ==> Encodable(labels[i])
  {
    forall i | 0 <= i < |labels| ensures Encodable(labels[i]) {
      assert HostLabel(labels[i]);
      AsciiIsUtf8(labels[i].bytes);
    }
  }

  lemma {:induction false} AsciiIsUtf8(bytes: seq<byte>)
    requires forall i :: 0 <= i < |bytes| ==> bytes[i] < 128
    ensures Utf8(bytes)
    decreases |bytes|
  {
    if bytes != [] { AsciiIsUtf8(bytes[1..]); }
  }

  /** The whole question for an accepted host. */
  ghost function QueryFor(host: seq<byte>, kind: nat, t0: byte, t1: byte): seq<byte>
    requires kind < 65536 && Accepted(host)
  {
    var labels := SplitDots(Bare(host));
    HostLabelsAreEncodable(labels);
    Preamble(t0, t1) + EncodeLabels(labels, 0) + [0] + Trailer(kind)
  }

  method Query(host: seq<byte>, kind: nat, t0: byte, t1: byte) returns (r: Option<seq<byte>>)
    requires kind < 65536
    ensures r == if Accepted(host) then Some(QueryFor(host, kind, t0, t1)) else None
  {
    var bare := Bare(host);
    if bare == [] || |bare| > MAX_HOST { return None; }
    var query, labels := Preamble(t0, t1), SplitDots(bare);
    for k := 0 to |labels|
      invariant forall i :: 0 <= i < k ==> HostLabel(labels[i]) && Encodable(labels[i])
      invariant query == Preamble(t0, t1) + EncodedUpTo(labels, k)
    {
      if !HostLabel(labels[k]) { return None; }
      var length: byte := |labels[k].bytes|;
      AsciiIsUtf8(labels[k].bytes);
      Regroup(Preamble(t0, t1) + EncodedUpTo(labels, k), [length], labels[k].bytes);
      Regroup(Preamble(t0, t1), EncodedUpTo(labels, k), EncodeLabel(labels[k]));
      query := query + [length] + labels[k].bytes;
    }
    UpToIsAll(labels, 0);
    assert [] + EncodeLabels(labels, 0) == EncodeLabels(labels, 0);
    return Some(query + [0] + Trailer(kind));
  }

  /** What the loop has pushed after `k` labels. */
  function EncodedUpTo(labels: seq<Label>, k: nat): seq<byte>
    requires k <= |labels| && forall i :: 0 <= i < k ==> Encodable(labels[i])
  {
    if k == 0 then [] else EncodedUpTo(labels, k - 1) + EncodeLabel(labels[k - 1])
  }

  lemma {:induction false} UpToIsAll(labels: seq<Label>, k: nat)
    requires k <= |labels| && forall i :: 0 <= i < |labels| ==> Encodable(labels[i])
    ensures EncodedUpTo(labels, k) + EncodeLabels(labels, k) == EncodedUpTo(labels, |labels|)
    decreases |labels| - k
  {
    if k == |labels| {
      assert EncodeLabels(labels, k) == [];
    } else {
      UpToIsAll(labels, k + 1);
      Regroup(EncodedUpTo(labels, k), EncodeLabel(labels[k]), EncodeLabels(labels, k + 1));
    }
  }

  // ---------------------------------------------------------------------------------------
  // What the repository's own reader makes of it
  // ---------------------------------------------------------------------------------------

  lemma WireLengthCons(l: Label, rest: seq<Label>)
    ensures WireLength([l] + rest, 0) == 1 + |l.bytes| + WireLength(rest, 0)
  {
    WireLengthOfRest(l, rest, 0);
  }

  lemma {:induction false} SplittingCountsOctets(host: seq<byte>)
    ensures WireLength(SplitDots(host), 0) == |host| + 1
    decreases |host|
  {
    var i := FirstDot(host, 0);
    if i < |host| {
      SplittingCountsOctets(host[i + 1..]);
      WireLengthCons(Label(host[..i]), SplitDots(host[i + 1..]));
    } else {
      WireLengthCons(Label(host), []);
    }
  }

  lemma {:induction false} DottedRest(l: Label, rest: seq<Label>, k: nat)
    requires k < |rest|
    ensures Dotted([l] + rest, k + 1) == Dotted(rest, k)
    decreases |rest| - k
  {
    if k + 1 < |rest| { DottedRest(l, rest, k + 1); }
  }

  lemma {:induction false} DottedUndoesSplitting(host: seq<byte>)
    ensures Dotted(SplitDots(host), 0) == host
    decreases |host|
  {
    var i := FirstDot(host, 0);
    if i < |host| {
      DottedUndoesSplitting(host[i + 1..]);
      DottedRest(Label(host[..i]), SplitDots(host[i + 1..]), 0);
      assert host == host[..i] + [DOT] + host[i + 1..];
    }
  }

  /** Lower case moves no dot. */
  lemma {:induction false} FirstDotOfLowered(host: seq<byte>, i: nat)
    requires i <= |host|
    ensures FirstDot(Lowered(host), i) == FirstDot(host, i)
    decreases |host| - i
  {
    if i < |host| && host[i] != DOT { FirstDotOfLowered(host, i + 1); }
  }

  lemma {:induction false} LoweredRest(l: Label, rest: seq<Label>, k: nat)
    requires k <= |rest|
    ensures LoweredLabels([l] + rest, k + 1) == LoweredLabels(rest, k)
    decreases |rest| - k
  {
    if k < |rest| {
      LoweredRest(l, rest, k + 1);
      assert ([l] + rest)[k + 1] == rest[k];
    }
  }

  lemma LoweredParts(host: seq<byte>, i: nat)
    requires i < |host|
    ensures Lowered(host)[..i] == Lowered(host[..i]) && Lowered(host)[i + 1..] == Lowered(host[i + 1..])
  {
  }

  lemma LoweredCons(l: Label, rest: seq<Label>)
    ensures LoweredLabels([l] + rest, 0) == [Label(Lowered(l.bytes))] + LoweredLabels(rest, 0)
  {
    LoweredRest(l, rest, 0);
  }

  lemma {:induction false} SplittingCommutesWithLower(host: seq<byte>)
    ensures LoweredLabels(SplitDots(host), 0) == SplitDots(Lowered(host))
    decreases |host|
  {
    var i, low := FirstDot(host, 0), Lowered(host);
    FirstDotOfLowered(host, 0);
    if i < |host| {
      var first, rest := Label(host[..i]), host[i + 1..];
      calc {
        LoweredLabels(SplitDots(host), 0);
        { LoweredCons(first, SplitDots(rest)); }
        [Label(Lowered(host[..i]))] + LoweredLabels(SplitDots(rest), 0);
        { SplittingCommutesWithLower(rest); LoweredParts(host, i); }
        [Label(low[..i])] + SplitDots(low[i + 1..]);
        SplitDots(low);
      }
    } else {
      LoweredCons(Label(host), []);
    }
  }

  /**
   Round trip, for every accepted host: the query is read back as one question, whose name is the host in lower
   case without a trailing dot, in host length + 2 octets and never more than 255, with the kind asked for, in the
   Internet class; the ID is the one given, recursion is asked for, and no records follow.
   */
  lemma QueriesDecode(host: seq<byte>, kind: nat, t0: byte, t1: byte)
    requires kind < 65536 && Accepted(host)
    ensures
      var query, bare := QueryFor(host, kind, t0, t1), Bare(host);
      var name := NameAt(query, HEADER, 0, 0);
      && name.Some? && name.value.labels == SplitDots(Lowered(bare)) && Dotted(name.value.labels, 0) == Lowered(bare)
      && name.value.next == HEADER + |bare| + 2 && |bare| + 2 <= 255
      && |query| == name.value.next + 4 && query[name.value.next..] == Trailer(kind)
      && AsksOneQuestion(query)
      && Word(query, name.value.next) == kind && Word(query, name.value.next + 2) == 1
      && query[0] == t0 && query[1] == t1 && Word(query, 2) == 0x0100 && CountsOf(query) == Counts(0, 0)
  {
    var bare := Bare(host);
    SplittingCountsOctets(bare);
    HostLabelsAreEncodable(SplitDots(bare));
    QueryIsRead(QueryFor(host, kind, t0, t1), SplitDots(bare), kind, t0, t1);
    SplittingCommutesWithLower(bare);
    DottedUndoesSplitting(Lowered(bare));
    TrailerIsRead(QueryFor(host, kind, t0, t1), HEADER + |bare| + 2, kind);
  }

  lemma TrailerIsRead(query: seq<byte>, at: nat, kind: nat)
    requires kind < 65536 && at + 4 == |query| && query[at..] == Trailer(kind)
    ensures Word(query, at) == kind && Word(query, at + 2) == 1
  {
    var end := query[at..];
    assert query[at] == end[0] && query[at + 1] == end[1] && query[at + 2] == end[2] && query[at + 3] == end[3];
  }

  lemma QueryIsRead(query: seq<byte>, labels: seq<Label>, kind: nat, t0: byte, t1: byte)
    requires kind < 65536 && (forall i :: 0 <= i < |labels| ==> Encodable(labels[i])) && WireLength(labels, 0) <= MAX_WIRE
    requires query == Preamble(t0, t1) + EncodeLabels(labels, 0) + [0] + Trailer(kind)
    ensures NameAt(query, HEADER, 0, 0) == Some(Name(LoweredLabels(labels, 0), HEADER + WireLength(labels, 0) + 1))
    ensures |query| == HEADER + WireLength(labels, 0) + 5
    ensures query[HEADER + WireLength(labels, 0) + 1..] == Trailer(kind)
    ensures AsksOneQuestion(query)
    ensures query[0] == t0 && query[1] == t1 && Word(query, 2) == 0x0100 && CountsOf(query) == Counts(0, 0)
  {
    EncodedLength(labels, 0);
    QueryParts(query, Preamble(t0, t1), EncodeLabels(labels, 0), Trailer(kind));
    assert StandsAt(query, HEADER, EncodeLabels(labels, 0) + [0]);
    EncodedLabelsAreRead(query, HEADER, labels);
    AsksIfRead(query, t0, t1);
    PreambleIsRead(query, t0, t1);
  }

  lemma PreambleIsRead(query: seq<byte>, t0: byte, t1: byte)
    requires |query| >= HEADER && forall i :: 0 <= i < HEADER ==> query[i] == Preamble(t0, t1)[i]
    ensures query[0] == t0 && query[1] == t1 && Word(query, 2) == 0x0100 && CountsOf(query) == Counts(0, 0)
  {
    assert query[2] == 1 && query[3] == 0 && query[6] == 0 && query[7] == 0;
    assert query[8] == 0 && query[9] == 0 && query[10] == 0 && query[11] == 0;
  }

  lemma AsksIfRead(query: seq<byte>, t0: byte, t1: byte)
    requires |query| >= HEADER && forall i :: 0 <= i < HEADER ==> query[i] == Preamble(t0, t1)[i]
    ensures AsksOneQuestion(query) <==> QuestionEnd(query).Some?
  {
    assert query[2] == Preamble(t0, t1)[2] && query[4] == Preamble(t0, t1)[4] && query[5] == Preamble(t0, t1)[5];
  }

  lemma QueryParts(query: seq<byte>, front: seq<byte>, middle: seq<byte>, back: seq<byte>)
    requires query == front + middle + [0] + back
    ensures |query| == |front| + |middle| + 1 + |back|
    ensures query[..|front|] == front && query[|front|..|front| + |middle| + 1] == middle + [0]
    ensures query[|front| + |middle| + 1..] == back
    ensures forall i :: 0 <= i < |front| ==> query[i] == front[i]
  {
  }

  // ---------------------------------------------------------------------------------------
  // Which hosts are accepted
  // ---------------------------------------------------------------------------------------

  predicate IsLetterDigitHyphen(b: byte) {
    48 <= b < 58 || 65 <= b < 91 || 97 <= b < 123 || b == 45
  }

  /** There is a dot among the 64 bytes from `i` on. */
  ghost predicate HasDot(name: seq<byte>, i: int) {
    exists j :: i <= j < i + 64 && 0 <= j < |name| && name[j] == 46
  }

  /**
   A host name on its bytes: letters, digits, hyphens and dots, no dot at either end, no two dots in a row, and a dot
   among any 64 bytes.
   */
  ghost predicate WellNamed(name: seq<byte>) {
    && name != [] && name[0] != 46 && name[|name| - 1] != 46
    && (forall i :: 0 <= i < |name| ==> name[i] == 46 || IsLetterDigitHyphen(name[i]))
    && (forall i :: 0 <= i < |name| - 1 ==> name[i] != 46 || name[i + 1] != 46)
    && (forall i :: 0 <= i <= |name| - 64 ==> HasDot(name, i))
  }

  ghost predicate AllHostLabels(labels: seq<Label>) {
    forall i :: 0 <= i < |labels| ==> HostLabel(labels[i])
  }

  /** Behind its first dot a name is well named exactly when it is so altogether and a label stands in front. */
  lemma WellNamedBehindDot(name: seq<byte>, d: nat)
    requires d < |name| && name[d] == DOT && forall j :: 0 <= j < d ==> name[j] != DOT
    ensures WellNamed(name) <==> HostLabel(Label(name[..d])) && WellNamed(name[d + 1..])
  {
    if WellNamed(name) { LabelInFront(name, d); RestIsWellNamed(name, d); }
    if HostLabel(Label(name[..d])) && WellNamed(name[d + 1..]) { WholeIsWellNamed(name, d); }
  }

  lemma LabelInFront(name: seq<byte>, d: nat)
    requires WellNamed(name) && d < |name| && name[d] == DOT && forall j :: 0 <= j < d ==> name[j] != DOT
    ensures HostLabel(Label(name[..d]))
  {
    if |name| >= 64 { assert HasDot(name, 0); }
  }

  lemma RestIsWellNamed(name: seq<byte>, d: nat)
    requires WellNamed(name) && d < |name| && name[d] == DOT
    ensures WellNamed(name[d + 1..])
  {
    var rest := name[d + 1..];
    forall i | 0 <= i <= |rest| - 64 ensures HasDot(rest, i) {
      assert HasDot(name, d + 1 + i);
      var j :| d + 1 + i <= j < d + 1 + i + 64 && 0 <= j < |name| && name[j] == 46;
      assert rest[j - d - 1] == 46;
    }
  }

  lemma WholeIsWellNamed(name: seq<byte>, d: nat)
    requires d < |name| && name[d] == DOT && HostLabel(Label(name[..d])) && WellNamed(name[d + 1..])
    requires forall j :: 0 <= j < d ==> name[j] != DOT
    ensures WellNamed(name)
  {
    var front, rest := name[..d], name[d + 1..];
    forall i | 0 <= i < |name| ensures name[i] == 46 || IsLetterDigitHyphen(name[i]) {
      if i < d { assert HostByte(front[i]) && front[i] == name[i]; }
      if i > d { assert rest[i - d - 1] == name[i]; }
    }
    forall i | 0 <= i < |name| - 1 ensures name[i] != 46 || name[i + 1] != 46 {
      if i > d { assert rest[i - d - 1] == name[i] && rest[i - d] == name[i + 1]; }
      if i == d { assert rest[0] == name[i + 1]; }
    }
    forall i | 0 <= i <= |name| - 64 ensures HasDot(name, i) {
      if i > d {
        assert HasDot(rest, i - d - 1);
        var j :| i - d - 1 <= j < i - d - 1 + 64 && 0 <= j < |rest| && rest[j] == 46;
        assert name[j + d + 1] == 46;
      }
    }
    assert name[0] == front[0] && name[|name| - 1] == rest[|rest| - 1];
  }

  lemma {:induction false} LabelsAreWellNamedIff(name: seq<byte>)
    ensures AllHostLabels(SplitDots(name)) <==> WellNamed(name)
    decreases |name|
  {
    var d := FirstDot(name, 0);
    if d == |name| {
      assert SplitDots(name) == [Label(name)];
      assert WellNamed(name) && |name| >= 64 ==> HasDot(name, 0);
      if HostLabel(Label(name)) {
        forall i | 0 <= i < |name| ensures IsLetterDigitHyphen(name[i]) { assert HostByte(Label(name).bytes[i]); }
      }
      assert AllHostLabels([Label(name)]) <==> HostLabel([Label(name)][0]);
    } else {
      LabelsAreWellNamedIff(name[d + 1..]);
      WellNamedBehindDot(name, d);
      HeadAndRest(Label(name[..d]), SplitDots(name[d + 1..]));
    }
  }

  lemma HeadAndRest(head: Label, rest: seq<Label>)
    ensures AllHostLabels([head] + rest) <==> HostLabel(head) && AllHostLabels(rest)
  {
    var all := [head] + rest;
    if AllHostLabels(all) {
      assert HostLabel(all[0]);
      forall i | 0 <= i < |rest| ensures HostLabel(rest[i]) { assert HostLabel(all[i + 1]); }
    }
  }

  /** Exactly which hosts are accepted, for every sequence of bytes; one dot at the end does not count. */
  lemma AcceptedIff(host: seq<byte>)
    ensures Accepted(host) <==>
      var name := if host != [] && host[|host| - 1] == 46 then host[..|host| - 1] else host;
      |name| <= 253 && WellNamed(name)
  {
    LabelsAreWellNamedIff(Bare(host));
  }
}
