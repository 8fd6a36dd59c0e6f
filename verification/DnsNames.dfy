/** Names in DNS messages: the reader with compression pointers, and the plain encoding. */
module DnsNames {
  import opened Common

  const MAX_POINTER_JUMPS: nat := 32
  const MAX_LABEL: nat := 63
  const MAX_WIRE: nat := 255

  datatype Label = Label(bytes: seq<byte>)

  // ---------------------------------------------------------------------------------------
  // Text of a label
  // ---------------------------------------------------------------------------------------

  predicate Continuation(bytes: seq<byte>, from: nat, count: nat) {
    from + count <= |bytes| && forall i :: from <= i < from + count ==> 0x80 <= bytes[i] <= 0xBF
  }

  /** How many bytes the character at the front takes; zero if there is no well-formed one. */
  function CharLength(bytes: seq<byte>): (n: nat)
    requires bytes != []
    ensures n <= |bytes|
  {
    var b := bytes[0];
    if b < 0x80 then 1
    else if |bytes| < 2 then 0
    else
      var second := bytes[1];
      if 0xC2 <= b <= 0xDF && 0x80 <= second <= 0xBF then 2
      else if 0xE0 <= b <= 0xEF && Continuation(bytes, 1, 2) && (b == 0xE0 ==> 0xA0 <= second) && (b == 0xED ==> second <= 0x9F)
      then 3
      else if 0xF0 <= b <= 0xF4 && Continuation(bytes, 1, 3) && (b == 0xF0 ==> 0x90 <= second) && (b == 0xF4 ==> second <= 0x8F)
      then 4
      else 0
  }

  /** The bytes are UTF-8. */
  predicate Utf8(bytes: seq<byte>)
    decreases |bytes|
  {
    bytes == [] || (CharLength(bytes) > 0 && Utf8(bytes[CharLength(bytes)..]))
  }

  function Lower(b: byte): byte {
    if 65 <= b <= 90 then b + 32 else b
  }

  function Lowered(bytes: seq<byte>): (r: seq<byte>)
    ensures |r| == |bytes|
    ensures forall i :: 0 <= i < |bytes| ==> r[i] == Lower(bytes[i])
  {
    seq(|bytes|, i requires 0 <= i < |bytes| => Lower(bytes[i]))
  }

  // ---------------------------------------------------------------------------------------
  // Reading
  // ---------------------------------------------------------------------------------------

  /** The labels of a name, in lower case, and the offset after its own bytes. */
  datatype Name = Name(labels: seq<Label>, next: nat)

  /** What stands at one position: the end of a name, a pointer, a label in lower case, or nothing readable. */
  datatype Element = Bad | End | Jump(target: nat) | Part(text: Label, next: nat)

  function ElementAt(packet: seq<byte>, position: nat): (e: Element)
    ensures e.End? ==> position < |packet|
    ensures e.Jump? ==> position + 1 < |packet| && e.target < |packet|
    ensures e.Part? ==> 0 < |e.text.bytes| <= MAX_LABEL && e.next == position + 1 + |e.text.bytes| <= |packet|
  {
    if position >= |packet| then Bad
    else
      var length: int := packet[position];
      if length >= 0xC0 then
        if position + 1 >= |packet| then Bad
        else
          var target := Be16(length - 0xC0, packet[position + 1]);
          if target >= |packet| then Bad else Jump(target)
      else if length >= 0x40 then Bad
      else if length == 0 then End
      else
        var next := position + 1 + length;
        if next > |packet| || !Utf8(packet[position + 1..next]) then Bad
        else Part(Label(Lowered(packet[position + 1..next])), next)
  }

  /**
   The name read at `position` after `jumps` pointers and `wire` octets of labels.  Pointers are followed to any
   place in the packet, at most 32 of them, which also ends every cycle.
   */
  function NameAt(packet: seq<byte>, position: nat, jumps: nat, wire: nat): (r: Option<Name>)
    requires jumps <= MAX_POINTER_JUMPS && wire <= MAX_WIRE
    ensures r.Some? ==> position < r.value.next <= |packet|
    decreases MAX_POINTER_JUMPS - jumps, |packet| - position
  {
    match ElementAt(packet, position)
    case Bad => None
    case End => Some(Name([], position + 1))
    case Jump(target) =>
      if jumps == MAX_POINTER_JUMPS then None
      else
        var rest := NameAt(packet, target, jumps + 1, wire);
        if rest.None? then None else Some(Name(rest.value.labels, position + 2))
    case Part(text, next) =>
      if wire + |text.bytes| + 1 > MAX_WIRE then None
      else
        var rest := NameAt(packet, next, jumps, wire + |text.bytes| + 1);
        if rest.None? then None else Some(Name([text] + rest.value.labels, rest.value.next))
  }

  /** Octets of `labels[k..]` with their length octets, the root's not counted. */
  function WireLength(labels: seq<Label>, k: nat): nat
    requires k <= |labels|
    decreases |labels| - k
  {
    if k == |labels| then 0 else 1 + |labels[k].bytes| + WireLength(labels, k + 1)
  }

  lemma {:induction false} WireLengthOfRest(text: Label, rest: seq<Label>, k: nat)
    requires k <= |rest|
    ensures WireLength([text] + rest, k + 1) == WireLength(rest, k)
    decreases |rest| - k
  {
    if k < |rest| { WireLengthOfRest(text, rest, k + 1); }
  }

  /** No name is longer than the limit, whatever pointers it uses. */
  lemma {:induction false} NamesFitTheLimit(packet: seq<byte>, position: nat, jumps: nat, wire: nat)
    requires jumps <= MAX_POINTER_JUMPS && wire <= MAX_WIRE
    ensures var r := NameAt(packet, position, jumps, wire); r.Some? ==> wire + WireLength(r.value.labels, 0) <= MAX_WIRE
    decreases MAX_POINTER_JUMPS - jumps, |packet| - position
  {
    match ElementAt(packet, position)
    case Bad =>
    case End =>
    case Jump(target) => if jumps < MAX_POINTER_JUMPS { NamesFitTheLimit(packet, target, jumps + 1, wire); }
    case Part(text, next) =>
      if wire + |text.bytes| + 1 <= MAX_WIRE {
        NamesFitTheLimit(packet, next, jumps, wire + |text.bytes| + 1);
        var rest := NameAt(packet, next, jumps, wire + |text.bytes| + 1);
        if rest.Some? { WireLengthOfRest(text, rest.value.labels, 0); }
      }
  }

  /** The reader's variables: labels so far, where it reads, and where the name ends once a pointer has been followed. */
  datatype Reader = Reader(labels: seq<Label>, position: nat, jumped: bool, end: nat, jumps: nat, wire: nat) {
    predicate Valid() {
      jumps <= MAX_POINTER_JUMPS && wire <= MAX_WIRE
    }
  }

  /** What reading on from here gives in the end. */
  function Left(packet: seq<byte>, s: Reader): Option<Name>
    requires s.Valid()
  {
    var rest := NameAt(packet, s.position, s.jumps, s.wire);
    if rest.None? then None else Some(Name(s.labels + rest.value.labels, if s.jumped then s.end else rest.value.next))
  }

  function Jumped(s: Reader, target: nat): Reader {
    s.(position := target, jumped := true, end := if s.jumped then s.end else s.position + 2, jumps := s.jumps + 1)
  }

  function Collected(s: Reader, text: Label, next: nat): Reader {
    s.(labels := s.labels + [text], position := next, wire := s.wire + |text.bytes| + 1)
  }

  lemma CollectingLeavesTheSame(packet: seq<byte>, s: Reader, text: Label, next: nat)
    requires s.Valid() && Collected(s, text, next).Valid() && ElementAt(packet, s.position) == Part(text, next)
    ensures Left(packet, s) == Left(packet, Collected(s, text, next))
  {
    var rest := NameAt(packet, next, s.jumps, s.wire + |text.bytes| + 1);
    if rest.Some? { assert s.labels + [text] + rest.value.labels == s.labels + ([text] + rest.value.labels); }
  }

  lemma JumpingLeavesTheSame(packet: seq<byte>, s: Reader, target: nat)
    requires s.Valid() && s.jumps < MAX_POINTER_JUMPS && ElementAt(packet, s.position) == Jump(target)
    ensures Left(packet, s) == Left(packet, Jumped(s, target))
  {
  }

  lemma StoppingLeaves(packet: seq<byte>, s: Reader)
    requires s.Valid()
    ensures ElementAt(packet, s.position).Bad? ==> Left(packet, s) == None
    ensures ElementAt(packet, s.position).Jump? && s.jumps == MAX_POINTER_JUMPS ==> Left(packet, s) == None
    ensures var e := ElementAt(packet, s.position);
      e.Part? && s.wire + |e.text.bytes| + 1 > MAX_WIRE ==> Left(packet, s) == None
    ensures ElementAt(packet, s.position).End? ==>
      Left(packet, s) == Some(Name(s.labels, if s.jumped then s.end else s.position + 1))
  {
    assert s.labels + [] == s.labels;
  }

  /** The reader: labels are collected while the position moves, and the first pointer fixes where the name ends. */
  method ReadName(packet: seq<byte>, offset: nat) returns (r: Option<Name>)
    ensures r == NameAt(packet, offset, 0, 0)
  {
    var s := Reader([], offset, false, 0, 0, 0);
    StartingLeavesAll(packet, s);
    while true
      invariant s.Valid() && Left(packet, s) == NameAt(packet, offset, 0, 0)
      decreases MAX_POINTER_JUMPS - s.jumps, |packet| - s.position
    {
      StoppingLeaves(packet, s);
      match ElementAt(packet, s.position)
      case Bad => return None;
      case End => return Some(Name(s.labels, if s.jumped then s.end else s.position + 1));
      case Jump(target) =>
        if s.jumps >= MAX_POINTER_JUMPS { return None; }
        JumpingLeavesTheSame(packet, s, target);
        s := Jumped(s, target);
      case Part(text, next) =>
        if s.wire + |text.bytes| + 1 > MAX_WIRE { return None; }
        CollectingLeavesTheSame(packet, s, text, next);
        s := Collected(s, text, next);
    }
  }

  lemma StartingLeavesAll(packet: seq<byte>, s: Reader)
    requires s.Valid() && s.labels == [] && !s.jumped
    ensures Left(packet, s) == NameAt(packet, s.position, s.jumps, s.wire)
  {
    var rest := NameAt(packet, s.position, s.jumps, s.wire);
    if rest.Some? { assert [] + rest.value.labels == rest.value.labels; }
  }

  // ---------------------------------------------------------------------------------------
  // The plain encoding
  // ---------------------------------------------------------------------------------------

  predicate Encodable(l: Label) {
    0 < |l.bytes| <= MAX_LABEL && Utf8(l.bytes)
  }

  /** A length octet and the label. */
  function EncodeLabel(l: Label): seq<byte>
    requires Encodable(l)
  {
    var length: byte := |l.bytes|;
    [length] + l.bytes
  }

  /** The labels from the `k`-th on. */
  function EncodeLabels(labels: seq<Label>, k: nat): seq<byte>
    requires k <= |labels| && forall i :: 0 <= i < |labels| ==> Encodable(labels[i])
    decreases |labels| - k
  {
    if k == |labels| then [] else EncodeLabel(labels[k]) + EncodeLabels(labels, k + 1)
  }

  function LoweredLabels(labels: seq<Label>, k: nat): seq<Label>
    requires k <= |labels|
    decreases |labels| - k
  {
    if k == |labels| then [] else [Label(Lowered(labels[k].bytes))] + LoweredLabels(labels, k + 1)
  }

  /** The elements of the packet from `at` on are these labels, in lower case, and the end of a name. */
  predicate Laid(packet: seq<byte>, at: nat, labels: seq<Label>, k: nat)
    requires k <= |labels|
    decreases |labels| - k
  {
    if k == |labels| then ElementAt(packet, at) == End
    else
      var next := at + 1 + |labels[k].bytes|;
      ElementAt(packet, at) == Part(Label(Lowered(labels[k].bytes)), next) && Laid(packet, next, labels, k + 1)
  }

  lemma {:induction false} EncodedLabelsAreLaid(packet: seq<byte>, at: nat, labels: seq<Label>, k: nat)
    requires k <= |labels| && forall i :: 0 <= i < |labels| ==> Encodable(labels[i])
    requires StandsAt(packet, at, EncodeLabels(labels, k) + [0])
    ensures Laid(packet, at, labels, k)
    decreases |labels| - k
  {
    if k == |labels| {
      assert packet[at] == packet[at..at + 1][0] == 0;
    } else {
      var first, rest := labels[k], EncodeLabels(labels, k + 1);
      assert EncodeLabel(first) + rest + [0] == EncodeLabel(first) + (rest + [0]);
      SplitLabel(packet, at, first, rest + [0]);
      EncodedLabelsAreLaid(packet, at + 1 + |first.bytes|, labels, k + 1);
    }
  }

  lemma {:induction false} LaidLabelsAreRead(packet: seq<byte>, at: nat, labels: seq<Label>, k: nat, jumps: nat, wire: nat)
    requires k <= |labels| && Laid(packet, at, labels, k)
    requires jumps <= MAX_POINTER_JUMPS && wire + WireLength(labels, k) <= MAX_WIRE
    ensures NameAt(packet, at, jumps, wire) == Some(Name(LoweredLabels(labels, k), at + WireLength(labels, k) + 1))
    decreases |labels| - k
  {
    if k < |labels| {
      var length := |labels[k].bytes|;
      LaidLabelsAreRead(packet, at + 1 + length, labels, k + 1, jumps, wire + length + 1);
      NameGoesOn(packet, at, jumps, wire, Label(Lowered(labels[k].bytes)), at + 1 + length);
    }
  }

  /** Round trip: labels within the limits, wherever their encoding stands, are read back in lower case, to the last octet. */
  lemma EncodedLabelsAreRead(packet: seq<byte>, at: nat, labels: seq<Label>)
    requires (forall i :: 0 <= i < |labels| ==> Encodable(labels[i])) && WireLength(labels, 0) <= MAX_WIRE
    requires StandsAt(packet, at, EncodeLabels(labels, 0) + [0])
    ensures NameAt(packet, at, 0, 0) == Some(Name(LoweredLabels(labels, 0), at + WireLength(labels, 0) + 1))
  {
    EncodedLabelsAreLaid(packet, at, labels, 0);
    LaidLabelsAreRead(packet, at, labels, 0, 0, 0);
  }

  /** Labels that take more than the limit are refused, wherever they stand. */
  lemma {:induction false} TooLongIsRefused(packet: seq<byte>, at: nat, labels: seq<Label>, k: nat, jumps: nat, wire: nat)
    requires k <= |labels| && Laid(packet, at, labels, k)
    requires jumps <= MAX_POINTER_JUMPS && wire <= MAX_WIRE < wire + WireLength(labels, k)
    ensures NameAt(packet, at, jumps, wire) == None
    decreases |labels| - k
  {
    var length := |labels[k].bytes|;
    if wire + length + 1 <= MAX_WIRE {
      TooLongIsRefused(packet, at + 1 + length, labels, k + 1, jumps, wire + length + 1);
    }
  }

  /** What a name takes on the wire when it is written out: its labels and the root's length octet. */
  function WireOctets(labels: seq<Label>): nat {
    WireLength(labels, 0) + 1
  }

  /**
   Exactly which encodings are read: those of at most 256 octets, one more than the 255 of section 2.3.4 of
   RFC 1035.  What is read is the whole encoding, so it keeps to the standard unless it takes exactly 256.
   */
  lemma EncodedLabelsAreReadIff(packet: seq<byte>, at: nat, labels: seq<Label>)
    requires forall i :: 0 <= i < |labels| ==> Encodable(labels[i])
    requires StandsAt(packet, at, EncodeLabels(labels, 0) + [0])
    ensures NameAt(packet, at, 0, 0).Some? <==> WireOctets(labels) <= 256
    ensures NameAt(packet, at, 0, 0).Some? ==> NameAt(packet, at, 0, 0).value.next == at + WireOctets(labels)
  {
    EncodedLabelsAreLaid(packet, at, labels, 0);
    if WireLength(labels, 0) <= MAX_WIRE {
      EncodedLabelsAreRead(packet, at, labels);
    } else {
      TooLongIsRefused(packet, at, labels, 0, 0, 0);
    }
  }

  /** `n` times the letter a. */
  lemma {:induction false} LabelOfLetters(n: nat) returns (l: Label)
    ensures |l.bytes| == n && Utf8(l.bytes)
  {
    if n == 0 {
      l := Label([]);
    } else {
      var rest := LabelOfLetters(n - 1);
      l := Label([97] + rest.bytes);
      assert l.bytes[1..] == rest.bytes;
    }
  }

  /** Three labels of 63 octets and one of 62. */
  lemma LongestLabels() returns (labels: seq<Label>)
    ensures labels != [] && forall i :: 0 <= i < |labels| ==> Encodable(labels[i])
    ensures WireOctets(labels) == 256
  {
    var long := LabelOfLetters(63);
    var short := LabelOfLetters(62);
    labels := [long, long, long, short];
    assert WireLength(labels, 4) == 0;
    assert WireLength(labels, 3) == 63;
    assert WireLength(labels, 2) == 127;
    assert WireLength(labels, 1) == 191;
  }

  lemma {:induction false} LoweringKeepsLength(labels: seq<Label>, k: nat, j: nat)
    requires k <= |labels| && j <= |labels| - k && |LoweredLabels(labels, k)| == |labels| - k
    ensures WireLength(LoweredLabels(labels, k), j) == WireLength(labels, k + j)
    decreases |labels| - k - j
  {
    if j < |labels| - k {
      LoweringKeepsLength(labels, k, j + 1);
      LoweredLabelAt(labels, k, j);
    }
  }

  lemma {:induction false} LoweredLabelAt(labels: seq<Label>, k: nat, j: nat)
    requires k + j < |labels|
    ensures |LoweredLabels(labels, k)| == |labels| - k
    ensures LoweredLabels(labels, k)[j] == Label(Lowered(labels[k + j].bytes))
    decreases |labels| - k
  {
    if k + 1 < |labels| { LoweredLabelAt(labels, k + 1, if j > 0 then j - 1 else 0); }
  }

  /** Labels within the limit, written out anywhere in a packet, come back with their number of octets. */
  lemma WrittenOutIsRead(packet: seq<byte>, at: nat, labels: seq<Label>)
    requires (forall i :: 0 <= i < |labels| ==> Encodable(labels[i])) && 0 < |labels| && WireLength(labels, 0) <= MAX_WIRE
    requires StandsAt(packet, at, EncodeLabels(labels, 0) + [0])
    ensures var name := NameAt(packet, at, 0, 0);
      name.Some? && name.value.next == at + WireOctets(labels) && WireOctets(name.value.labels) == WireOctets(labels)
  {
    EncodedLabelsAreRead(packet, at, labels);
    LoweredLabelAt(labels, 0, 0);
    LoweringKeepsLength(labels, 0, 0);
  }

  /** After any bytes, a name can stand that takes 256 octets and is read. */
  lemma LongestNameIsRead(front: seq<byte>) returns (packet: seq<byte>)
    ensures front <= packet && |packet| == |front| + 256
    ensures var name := NameAt(packet, |front|, 0, 0);
      name.Some? && name.value.next == |front| + 256 && WireOctets(name.value.labels) == 256
  {
    var labels := LongestLabels();
    EncodedLength(labels, 0);
    var body := EncodeLabels(labels, 0) + [0];
    packet := front + body;
    assert StandsAt(packet, |front|, body);
    WrittenOutIsRead(packet, |front|, labels);
  }

  lemma {:induction false} EncodedLength(labels: seq<Label>, k: nat)
    requires k <= |labels| && forall i :: 0 <= i < |labels| ==> Encodable(labels[i])
    ensures |EncodeLabels(labels, k)| == WireLength(labels, k)
    decreases |labels| - k
  {
    if k < |labels| { EncodedLength(labels, k + 1); }
  }

  lemma NameGoesOn(packet: seq<byte>, at: nat, jumps: nat, wire: nat, text: Label, next: nat)
    requires jumps <= MAX_POINTER_JUMPS && wire + |text.bytes| + 1 <= MAX_WIRE
    requires ElementAt(packet, at) == Part(text, next)
    ensures var rest := NameAt(packet, next, jumps, wire + |text.bytes| + 1);
      rest.Some? ==> NameAt(packet, at, jumps, wire) == Some(Name([text] + rest.value.labels, rest.value.next))
  {
  }

  lemma SplitLabel(packet: seq<byte>, at: nat, l: Label, rest: seq<byte>)
    requires Encodable(l) && StandsAt(packet, at, EncodeLabel(l) + rest)
    ensures ElementAt(packet, at) == Part(Label(Lowered(l.bytes)), at + 1 + |l.bytes|)
    ensures StandsAt(packet, at + 1 + |l.bytes|, rest)
  {
    var length: byte := |l.bytes|;
    var n, whole := |l.bytes|, [length] + l.bytes + rest;
    PartsOfThree([length], l.bytes, rest);
    assert packet[at..at + |whole|] == whole;
    assert packet[at] == whole[0] == length;
    assert packet[at + 1..at + 1 + n] == l.bytes by { SliceOfSlice(packet, at, at + |whole|, 1, 1 + n); }
    assert packet[at + 1 + n..at + |whole|] == rest by { SliceOfSlice(packet, at, at + |whole|, 1 + n, |whole|); }
  }
}
