/** Compression pointers: a name that continues elsewhere in the message is read there. */
module DnsCompression {
  import opened Common
  import opened DnsNames

  /** The two octets of a pointer to offset `p`. */
  function Pointer(p: nat): seq<byte>
    requires p < 0x4000
  {
    [0xC0 + p / 256, p % 256]
  }

  lemma PointersPoint(packet: seq<byte>, at: nat, p: nat)
    requires p < 0x4000 && p < |packet| && StandsAt(packet, at, Pointer(p))
    ensures ElementAt(packet, at) == Jump(p)
  {
    assert packet[at] == packet[at..at + 2][0] && packet[at + 1] == packet[at..at + 2][1];
  }

  lemma PointerIsFollowed(packet: seq<byte>, at: nat, target: nat, jumps: nat, wire: nat)
    requires ElementAt(packet, at) == Jump(target) && jumps <= MAX_POINTER_JUMPS && wire <= MAX_WIRE
    ensures jumps == MAX_POINTER_JUMPS ==> NameAt(packet, at, jumps, wire) == None
    ensures jumps < MAX_POINTER_JUMPS ==>
      var rest := NameAt(packet, target, jumps + 1, wire);
      NameAt(packet, at, jumps, wire) == if rest.None? then None else Some(Name(rest.value.labels, at + 2))
  {}

  /** The elements of the packet from `at` on are these labels, in lower case, and a pointer. */
  predicate LaidTo(packet: seq<byte>, at: nat, front: seq<Label>, k: nat, target: nat)
    requires k <= |front|
    decreases |front| - k
  {
    if k == |front| then ElementAt(packet, at) == Jump(target)
    else
      var next := at + 1 + |front[k].bytes|;
      ElementAt(packet, at) == Part(Label(Lowered(front[k].bytes)), next) && LaidTo(packet, next, front, k + 1, target)
  }

  lemma {:induction false} EncodedFrontIsLaid(packet: seq<byte>, at: nat, front: seq<Label>, k: nat, p: nat)
    requires k <= |front| && (forall i :: 0 <= i < |front| ==> Encodable(front[i])) && p < 0x4000 && p < |packet|
    requires StandsAt(packet, at, EncodeLabels(front, k) + Pointer(p))
    ensures LaidTo(packet, at, front, k, p)
    decreases |front| - k
  {
    if k == |front| {
      assert EncodeLabels(front, k) + Pointer(p) == Pointer(p);
      PointersPoint(packet, at, p);
    } else {
      Regroup(EncodeLabel(front[k]), EncodeLabels(front, k + 1), Pointer(p));
      SplitLabel(packet, at, front[k], EncodeLabels(front, k + 1) + Pointer(p));
      EncodedFrontIsLaid(packet, at + 1 + |front[k].bytes|, front, k + 1, p);
    }
  }

  /** Labels and then a pointer are read as the labels and what is read at the place pointed to. */
  lemma {:induction false} LaidFrontIsRead(packet: seq<byte>, at: nat, front: seq<Label>, k: nat, target: nat,
                                           jumps: nat, wire: nat, total: nat, rest: Name)
    requires k <= |front| && LaidTo(packet, at, front, k, target)
    requires jumps < MAX_POINTER_JUMPS && wire + WireLength(front, k) == total <= MAX_WIRE
    requires NameAt(packet, target, jumps + 1, total) == Some(rest)
    ensures NameAt(packet, at, jumps, wire) == Some(Name(LoweredLabels(front, k) + rest.labels, at + WireLength(front, k) + 2))
    decreases |front| - k
  {
    if k == |front| {
      PointerInFront(packet, at, target, jumps, wire, rest, LoweredLabels(front, k));
    } else {
      var text, length := Label(Lowered(front[k].bytes)), |front[k].bytes|;
      var next, more, end := at + 1 + length, wire + length + 1, at + WireLength(front, k) + 2;
      assert |text.bytes| == length && end == next + WireLength(front, k + 1) + 2;
      LaidFrontIsRead(packet, next, front, k + 1, target, jumps, more, total, rest);
      LabelInFront(packet, at, text, next, jumps, wire, more, LoweredLabels(front, k + 1), rest.labels,
                   LoweredLabels(front, k), end);
    }
  }

  lemma PointerInFront(packet: seq<byte>, at: nat, target: nat, jumps: nat, wire: nat, rest: Name, none: seq<Label>)
    requires ElementAt(packet, at) == Jump(target) && jumps < MAX_POINTER_JUMPS && wire <= MAX_WIRE && none == []
    requires NameAt(packet, target, jumps + 1, wire) == Some(rest)
    ensures NameAt(packet, at, jumps, wire) == Some(Name(none + rest.labels, at + 2))
  {
    PointerIsFollowed(packet, at, target, jumps, wire);
    assert none + rest.labels == rest.labels;
  }

  lemma LabelInFront(packet: seq<byte>, at: nat, text: Label, next: nat, jumps: nat, wire: nat, more: nat,
                     middle: seq<Label>, last: seq<Label>, both: seq<Label>, end: nat)
    requires jumps <= MAX_POINTER_JUMPS && wire + |text.bytes| + 1 == more <= MAX_WIRE && ElementAt(packet, at) == Part(text, next)
    requires NameAt(packet, next, jumps, more) == Some(Name(middle + last, end))
    requires both == [text] + middle
    ensures NameAt(packet, at, jumps, wire) == Some(Name(both + last, end))
  {
    NameGoesOn(packet, at, jumps, wire, text, next);
    Regroup([text], middle, last);
  }

  lemma LaidPartsAreRead(packet: seq<byte>, at: nat, front: seq<Label>, i: nat, p: nat, labels: seq<Label>, j: nat,
                         jumps: nat, wire: nat)
    requires i <= |front| && LaidTo(packet, at, front, i, p) && j <= |labels| && Laid(packet, p, labels, j)
    requires jumps < MAX_POINTER_JUMPS && wire + WireLength(front, i) + WireLength(labels, j) <= MAX_WIRE
    ensures NameAt(packet, at, jumps, wire) ==
      Some(Name(LoweredLabels(front, i) + LoweredLabels(labels, j), at + WireLength(front, i) + 2))
  {
    var total := wire + WireLength(front, i);
    LaidLabelsAreRead(packet, p, labels, j, jumps + 1, total);
    var rest := NameAt(packet, p, jumps + 1, total).value;
    LaidFrontIsRead(packet, at, front, i, p, jumps, wire, total, rest);
  }

  /**
   Compression is undone: where some labels and then the octets of a pointer stand, and other labels are written out
   at the offset those octets spell, the name read is the former and then the latter, in lower case, and its own
   bytes end with the pointer.  It makes no difference how many pointers and octets came before, within the limits.
   */
  lemma CompressedNamesAreRead(packet: seq<byte>, at: nat, front: seq<Label>, i: nat, p: nat, labels: seq<Label>, j: nat,
                               jumps: nat, wire: nat)
    requires (forall i :: 0 <= i < |front| ==> Encodable(front[i])) && (forall i :: 0 <= i < |labels| ==> Encodable(labels[i]))
    requires i <= |front| && j <= |labels| && p < 0x4000
    requires StandsAt(packet, at, EncodeLabels(front, i) + Pointer(p)) && StandsAt(packet, p, EncodeLabels(labels, j) + [0])
    requires jumps < MAX_POINTER_JUMPS && wire + WireLength(front, i) + WireLength(labels, j) <= MAX_WIRE
    ensures NameAt(packet, at, jumps, wire) ==
      Some(Name(LoweredLabels(front, i) + LoweredLabels(labels, j), at + WireLength(front, i) + 2))
  {
    EncodedLabelsAreLaid(packet, p, labels, j);
    EncodedFrontIsLaid(packet, at, front, i, p);
    LaidPartsAreRead(packet, at, front, i, p, labels, j, jumps, wire);
  }

  /** Each place but the last holds a pointer to the next. */
  predicate PointersFrom(packet: seq<byte>, places: seq<nat>) {
    places != [] && forall i :: 0 <= i < |places| - 1 ==> ElementAt(packet, places[i]) == Jump(places[i + 1])
  }

  /** A name behind a row of pointers is read if and only if there are at most 32 of them. */
  lemma {:induction false} PointersAreFollowedIff(packet: seq<byte>, places: seq<nat>, k: nat, labels: seq<Label>)
    requires PointersFrom(packet, places) && k < |places| && k <= 32
    requires Laid(packet, places[|places| - 1], labels, 0) && WireLength(labels, 0) <= MAX_WIRE
    ensures NameAt(packet, places[k], k, 0).Some? <==> |places| - 1 <= 32
    decreases |places| - k
  {
    if k == |places| - 1 {
      LaidLabelsAreRead(packet, places[k], labels, 0, k, 0);
    } else {
      assert ElementAt(packet, places[k]) == Jump(places[k + 1]);
      PointerIsFollowed(packet, places[k], places[k + 1], k, 0);
      if k < 32 { PointersAreFollowedIff(packet, places, k + 1, labels); }
    }
  }

  /** A pointer to itself is never read, however many pointers have been followed before. */
  lemma {:induction false} CyclesAreRefused(packet: seq<byte>, at: nat, jumps: nat, wire: nat)
    requires ElementAt(packet, at) == Jump(at) && jumps <= MAX_POINTER_JUMPS && wire <= MAX_WIRE
    ensures NameAt(packet, at, jumps, wire) == None
    decreases MAX_POINTER_JUMPS - jumps
  {
    if jumps < MAX_POINTER_JUMPS { CyclesAreRefused(packet, at, jumps + 1, wire); }
  }
}
