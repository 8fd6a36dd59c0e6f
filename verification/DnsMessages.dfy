/** DNS messages for resolvers that carry no transaction ID: what may be sent, what may come back. */
module DnsMessages {
  import opened Common
  import opened DnsNames

  const HEADER: nat := 12
  const MAX_MESSAGE: nat := 65535
  const OPT: nat := 41
  const TCP_KEEPALIVE: nat := 11

  function Word(packet: seq<byte>, at: nat): nat
    requires at + 1 < |packet|
  {
    Be16(packet[at], packet[at + 1])
  }

  // ---------------------------------------------------------------------------------------
  // Options of an OPT record
  // ---------------------------------------------------------------------------------------

  /** The end of the option at `at`, if a whole option other than TCP keepalive stands there. */
  function OptionEnd(data: seq<byte>, at: nat): (e: Option<nat>)
    ensures e.Some? ==> at < e.value <= |data|
  {
    if at + 4 > |data| then None
    else
      var end := at + 4 + Word(data, at + 2);
      if end > |data| || Word(data, at) == TCP_KEEPALIVE then None else Some(end)
  }

  /** The options from `at` on use up the data. */
  predicate OptionsFrom(data: seq<byte>, at: nat)
    decreases |data| - at
  {
    if at >= |data| then at == |data|
    else OptionEnd(data, at).Some? && OptionsFrom(data, OptionEnd(data, at).value)
  }

  /** `cuts` are boundaries that tile `data` from `at` on with options, none of them TCP keepalive. */
  predicate OptionTiles(data: seq<byte>, at: nat, cuts: seq<nat>) {
    && |cuts| > 0 && cuts[0] == at && cuts[|cuts| - 1] == |data|
    && forall i :: 0 <= i < |cuts| - 1 ==> OptionSpans(data, cuts[i], cuts[i + 1])
  }

  predicate OptionSpans(data: seq<byte>, at: nat, end: nat) {
    at + 4 <= end <= |data| && Word(data, at) != TCP_KEEPALIVE && end == at + 4 + Word(data, at + 2)
  }

  method OptionsAllowed(data: seq<byte>) returns (ok: bool)
    ensures ok <==> exists cuts :: OptionTiles(data, 0, cuts)
  {
    var option: nat := 0;
    while option < |data|
      invariant option <= |data| && (OptionsFrom(data, 0) <==> OptionsFrom(data, option))
    {
      if option + 4 > |data| {
        TilesAreOptions(data, 0);
        return false;
      }
      var code, length := Word(data, option), Word(data, option + 2);
      if option + 4 + length > |data| || code == TCP_KEEPALIVE {
        TilesAreOptions(data, 0);
        return false;
      }
      option := option + 4 + length;
    }
    TilesAreOptions(data, 0);
    return true;
  }

  /** Walking over the options and choosing boundaries for them come to the same. */
  lemma {:induction false} TilesAreOptions(data: seq<byte>, at: nat)
    ensures OptionsFrom(data, at) <==> exists cuts :: OptionTiles(data, at, cuts)
    decreases |data| - at
  {
    if at < |data| && OptionEnd(data, at).Some? { TilesAreOptions(data, OptionEnd(data, at).value); }
    if OptionsFrom(data, at) {
      if at == |data| {
        assert OptionTiles(data, at, [at]);
      } else {
        var rest :| OptionTiles(data, OptionEnd(data, at).value, rest);
        MoreOptionTiles(data, at, rest);
      }
    }
    forall cuts | OptionTiles(data, at, cuts) ensures OptionsFrom(data, at) {
      if |cuts| > 1 {
        assert OptionSpans(data, cuts[0], cuts[1]);
        FewerOptionTiles(data, at, cuts);
      }
    }
  }

  lemma MoreOptionTiles(data: seq<byte>, at: nat, rest: seq<nat>)
    requires OptionEnd(data, at).Some? && OptionTiles(data, OptionEnd(data, at).value, rest)
    ensures OptionTiles(data, at, [at] + rest)
  {
    var cuts := [at] + rest;
    forall i | 0 <= i < |cuts| - 1 ensures OptionSpans(data, cuts[i], cuts[i + 1]) {
      if i > 0 { assert OptionSpans(data, rest[i - 1], rest[i]); }
    }
  }

  lemma FewerOptionTiles(data: seq<byte>, at: nat, cuts: seq<nat>)
    requires OptionTiles(data, at, cuts) && |cuts| > 1
    ensures OptionTiles(data, cuts[1], cuts[1..])
  {
    var rest := cuts[1..];
    forall i | 0 <= i < |rest| - 1 ensures OptionSpans(data, rest[i], rest[i + 1]) {
      assert OptionSpans(data, cuts[i + 1], cuts[i + 2]);
    }
  }

  // ---------------------------------------------------------------------------------------
  // Records
  // ---------------------------------------------------------------------------------------

  datatype Record = Record(owner: seq<Label>, kind: nat, data: nat, end: nat)

  function RecordAt(packet: seq<byte>, at: nat): (r: Option<Record>)
    ensures r.Some? ==> at < r.value.data <= r.value.end <= |packet|
  {
    var name := NameAt(packet, at, 0, 0);
    if name.None? || name.value.next + 10 > |packet| then None
    else
      var header := name.value.next;
      var end := header + 10 + Word(packet, header + 8);
      if end > |packet| then None else Some(Record(name.value.labels, Word(packet, header), header + 10, end))
  }

  /** How many records the header announces, and how many of them stand before the additional section. */
  datatype Counts = Counts(before: nat, all: nat)

  function CountsOf(packet: seq<byte>): (c: Counts)
    requires |packet| >= HEADER
    ensures c.before <= c.all
  {
    var before := Word(packet, 6) + Word(packet, 8);
    Counts(before, before + Word(packet, 10))
  }

  /** An OPT record is owned by the root, stands in the additional section, and its options tile its data. */
  predicate OptInPlace(packet: seq<byte>, r: Record, index: nat, before: nat)
    requires r.data <= r.end <= |packet|
  {
    r.kind == OPT ==> before <= index && r.owner == [] && OptionsFrom(packet[r.data..r.end], 0)
  }

  predicate RecordsFrom(packet: seq<byte>, at: nat, index: nat, c: Counts, sawOpt: bool)
    requires index <= c.all
    decreases c.all - index
  {
    if index == c.all then at == |packet|
    else
      var r := RecordAt(packet, at);
      && r.Some? && OptInPlace(packet, r.value, index, c.before)
      && !(r.value.kind == OPT && sawOpt)
      && RecordsFrom(packet, r.value.end, index + 1, c, sawOpt || r.value.kind == OPT)
  }

  /** The offset after the one question. */
  function QuestionEnd(packet: seq<byte>): (e: Option<nat>)
    ensures e.Some? ==> e.value <= |packet|
  {
    var name := NameAt(packet, HEADER, 0, 0);
    if name.None? || name.value.next + 4 > |packet| then None else Some(name.value.next + 4)
  }

  predicate HeaderAllowed(packet: seq<byte>) {
    HEADER <= |packet| <= MAX_MESSAGE && packet[0] == 0 && packet[1] == 0 && Word(packet, 4) == 1
  }

  // ---------------------------------------------------------------------------------------
  // The same, by boundaries
  // ---------------------------------------------------------------------------------------

  predicate RecordSpans(packet: seq<byte>, at: nat, end: nat) {
    RecordAt(packet, at).Some? && RecordAt(packet, at).value.end == end
  }

  predicate OptAt(packet: seq<byte>, at: nat) {
    RecordAt(packet, at).Some? && RecordAt(packet, at).value.kind == OPT
  }

  /** The OPT record at `at`, if there is one, has the root as owner, and boundaries tile its data with options. */
  ghost predicate OptWellFormed(packet: seq<byte>, at: nat) {
    OptAt(packet, at) ==>
      var r := RecordAt(packet, at).value;
      r.owner == [] && exists cuts :: OptionTiles(packet[r.data..r.end], 0, cuts)
  }

  /**
   `cuts` are boundaries that tile the packet from its `index`-th record on: one record between any two, the last
   boundary at the end of the packet, OPT records well formed, none before the additional section, and at most one.
   */
  ghost predicate RecordTiles(packet: seq<byte>, index: nat, c: Counts, cuts: seq<nat>)
    requires index <= c.all
  {
    && |cuts| == c.all - index + 1 && cuts[|cuts| - 1] == |packet|
    && (forall i :: 0 <= i < |cuts| - 1 ==> RecordSpans(packet, cuts[i], cuts[i + 1]))
    && (forall i :: 0 <= i < |cuts| - 1 ==> OptWellFormed(packet, cuts[i]))
    && (forall i :: 0 <= i < |cuts| - 1 && OptAt(packet, cuts[i]) ==> c.before <= index + i)
    && (forall i, j :: 0 <= i < j < |cuts| - 1 ==> !(OptAt(packet, cuts[i]) && OptAt(packet, cuts[j])))
  }

  predicate NoOpt(packet: seq<byte>, cuts: seq<nat>) {
    forall i :: 0 <= i < |cuts| - 1 ==> !OptAt(packet, cuts[i])
  }

  ghost predicate TilesFrom(packet: seq<byte>, at: nat, index: nat, c: Counts, sawOpt: bool, cuts: seq<nat>)
    requires index <= c.all
  {
    RecordTiles(packet, index, c, cuts) && cuts[0] == at && (sawOpt ==> NoOpt(packet, cuts))
  }

  /** Exactly the messages that may travel without an ID. */
  ghost predicate Allowed(packet: seq<byte>) {
    && HeaderAllowed(packet) && QuestionEnd(packet).Some?
    && exists cuts :: TilesFrom(packet, QuestionEnd(packet).value, 0, CountsOf(packet), false, cuts)
  }

  lemma {:induction false} TilesAreRecords(packet: seq<byte>, at: nat, index: nat, c: Counts, sawOpt: bool)
    requires index <= c.all
    ensures RecordsFrom(packet, at, index, c, sawOpt) <==> exists cuts :: TilesFrom(packet, at, index, c, sawOpt, cuts)
    decreases c.all - index
  {
    if index == c.all {
      if at == |packet| { assert TilesFrom(packet, at, index, c, sawOpt, [at]); }
    } else {
      var r := RecordAt(packet, at);
      if r.Some? { TilesAreRecords(packet, r.value.end, index + 1, c, sawOpt || r.value.kind == OPT); }
      if RecordsFrom(packet, at, index, c, sawOpt) {
        var rest :| TilesFrom(packet, r.value.end, index + 1, c, sawOpt || r.value.kind == OPT, rest);
        MoreTiles(packet, at, index, c, sawOpt, rest);
      }
      forall cuts | TilesFrom(packet, at, index, c, sawOpt, cuts) ensures RecordsFrom(packet, at, index, c, sawOpt) {
        FewerTiles(packet, at, index, c, sawOpt, cuts);
      }
    }
  }

  lemma MoreTiles(packet: seq<byte>, at: nat, index: nat, c: Counts, sawOpt: bool, rest: seq<nat>)
    requires index < c.all && RecordAt(packet, at).Some?
    requires var r := RecordAt(packet, at).value;
      && OptInPlace(packet, r, index, c.before) && !(r.kind == OPT && sawOpt)
      && TilesFrom(packet, r.end, index + 1, c, sawOpt || r.kind == OPT, rest)
    ensures TilesFrom(packet, at, index, c, sawOpt, [at] + rest)
  {
    var r, cuts := RecordAt(packet, at).value, [at] + rest;
    assert OptWellFormed(packet, at) by {
      if r.kind == OPT { TilesAreOptions(packet[r.data..r.end], 0); }
    }
    assert RecordTiles(packet, index, c, cuts) by {
      forall i | 0 <= i < |cuts| - 1
        ensures RecordSpans(packet, cuts[i], cuts[i + 1]) && OptWellFormed(packet, cuts[i])
        ensures OptAt(packet, cuts[i]) ==> c.before <= index + i
      {
        if i > 0 { assert RecordSpans(packet, rest[i - 1], rest[i]) && OptWellFormed(packet, rest[i - 1]); }
      }
      forall i, j | 0 <= i < j < |cuts| - 1 ensures !(OptAt(packet, cuts[i]) && OptAt(packet, cuts[j])) {
        assert cuts[j] == rest[j - 1];
        if i > 0 { assert cuts[i] == rest[i - 1]; }
      }
    }
    if sawOpt {
      forall i | 0 <= i < |cuts| - 1 ensures !OptAt(packet, cuts[i]) {
        if i > 0 { assert cuts[i] == rest[i - 1]; }
      }
    }
  }

  lemma FewerTiles(packet: seq<byte>, at: nat, index: nat, c: Counts, sawOpt: bool, cuts: seq<nat>)
    requires index < c.all && TilesFrom(packet, at, index, c, sawOpt, cuts)
    ensures RecordAt(packet, at).Some?
    ensures var r := RecordAt(packet, at).value;
      && OptInPlace(packet, r, index, c.before) && !(r.kind == OPT && sawOpt)
      && TilesFrom(packet, r.end, index + 1, c, sawOpt || r.kind == OPT, cuts[1..])
  {
    assert RecordSpans(packet, cuts[0], cuts[1]) && OptWellFormed(packet, cuts[0]);
    var r, rest := RecordAt(packet, at).value, cuts[1..];
    if r.kind == OPT { TilesAreOptions(packet[r.data..r.end], 0); }
    forall i | 0 <= i < |rest| - 1
      ensures RecordSpans(packet, rest[i], rest[i + 1]) && OptWellFormed(packet, rest[i])
      ensures OptAt(packet, rest[i]) ==> c.before <= index + 1 + i && !OptAt(packet, cuts[0])
    {
      assert RecordSpans(packet, cuts[i + 1], cuts[i + 2]) && OptWellFormed(packet, cuts[i + 1]);
    }
    forall i, j | 0 <= i < j < |rest| - 1 ensures !(OptAt(packet, rest[i]) && OptAt(packet, rest[j])) {
      assert rest[i] == cuts[i + 1] && rest[j] == cuts[j + 1];
    }
  }

  // ---------------------------------------------------------------------------------------
  // The check
  // ---------------------------------------------------------------------------------------

  /** One pass of the loop over the records: the end of the record at `at` and whether an OPT was seen by now. */
  method CheckRecord(packet: seq<byte>, at: nat, index: nat, before: nat, sawOpt: bool) returns (ok: bool, end: nat, saw: bool)
    ensures ok <==> var r := RecordAt(packet, at);
      r.Some? && OptInPlace(packet, r.value, index, before) && !(r.value.kind == OPT && sawOpt)
    ensures ok ==> end == RecordAt(packet, at).value.end && saw == (sawOpt || RecordAt(packet, at).value.kind == OPT)
  {
    saw, end := sawOpt, at;
    var owner := ReadName(packet, at);
    if owner.None? || owner.value.next + 10 > |packet| { return false, end, saw; }
    var header := owner.value.next;
    var kind, length := Word(packet, header), Word(packet, header + 8);
    end := header + 10 + length;
    if end > |packet| { return false, end, saw; }
    if kind == OPT {
      if index < before || owner.value.labels != [] || sawOpt { return false, end, saw; }
      saw := true;
      var data := packet[header + 10..end];
      TilesAreOptions(data, 0);
      ok := OptionsAllowed(data);
      return ok, end, saw;
    }
    return true, end, saw;
  }

  method RecordsAllowed(packet: seq<byte>, start: nat, c: Counts) returns (ok: bool)
    ensures ok <==> exists cuts :: TilesFrom(packet, start, 0, c, false, cuts)
  {
    TilesAreRecords(packet, start, 0, c, false);
    ghost var whole := RecordsFrom(packet, start, 0, c, false);
    var offset, sawOpt := start, false;
    for index := 0 to c.all
      invariant whole <==> RecordsFrom(packet, offset, index, c, sawOpt)
    {
      var record, end, saw := CheckRecord(packet, offset, index, c.before, sawOpt);
      if !record { return false; }
      offset, sawOpt := end, saw;
    }
    return offset == |packet|;
  }

  method MessageAllowed(packet: seq<byte>) returns (ok: bool)
    ensures ok <==> Allowed(packet)
  {
    if !(HEADER <= |packet| <= MAX_MESSAGE) || packet[0] != 0 || packet[1] != 0 || Word(packet, 4) != 1 { return false; }
    var name := ReadName(packet, HEADER);
    if name.None? || name.value.next + 4 > |packet| { return false; }
    ok := RecordsAllowed(packet, name.value.next + 4, CountsOf(packet));
  }

  // ---------------------------------------------------------------------------------------
  // The limit on names
  // ---------------------------------------------------------------------------------------

  /** One question without an ID, its name written out, and nothing else. */
  function BareQuestion(labels: seq<Label>, kind: nat): seq<byte>
    requires kind < 65536 && forall i :: 0 <= i < |labels| ==> Encodable(labels[i])
  {
    [0, 0, 1, 0, 0, 1, 0, 0, 0, 0, 0, 0] + (EncodeLabels(labels, 0) + [0]) + [kind / 256, kind % 256, 0, 1]
  }

  lemma BareQuestionParts(front: seq<byte>, body: seq<byte>, back: seq<byte>)
    ensures StandsAt(front + body + back, |front|, body)
    ensures forall i :: 0 <= i < |front| ==> (front + body + back)[i] == front[i]
  {
  }

  /**
   What the reader's limit means for the check: a bare question is allowed exactly when its name takes at most
   256 octets, so names of 256 octets pass that section 2.3.4 of RFC 1035 does not allow.
   */
  lemma BareQuestionAllowedIff(labels: seq<Label>, kind: nat)
    requires kind < 65536 && forall i :: 0 <= i < |labels| ==> Encodable(labels[i])
    ensures Allowed(BareQuestion(labels, kind)) <==> WireOctets(labels) <= 256
  {
    var packet, body := BareQuestion(labels, kind), EncodeLabels(labels, 0) + [0];
    var front, back: seq<byte> := [0, 0, 1, 0, 0, 1, 0, 0, 0, 0, 0, 0], [kind / 256, kind % 256, 0, 1];
    BareQuestionParts(front, body, back);
    EncodedLength(labels, 0);
    EncodedLabelsAreReadIff(packet, HEADER, labels);
    if WireOctets(labels) <= 256 {
      assert QuestionEnd(packet) == Some(|packet|);
      assert CountsOf(packet) == Counts(0, 0);
      assert TilesFrom(packet, |packet|, 0, Counts(0, 0), false, [|packet|]);
    }
  }

  /** Such a message. */
  lemma LongestQuestionIsAllowed() returns (packet: seq<byte>)
    ensures Allowed(packet)
    ensures NameAt(packet, HEADER, 0, 0).Some? && WireOctets(NameAt(packet, HEADER, 0, 0).value.labels) == 256
  {
    var labels := LongestLabels();
    packet := BareQuestion(labels, 1);
    BareQuestionAllowedIff(labels, 1);
    BareQuestionParts([0, 0, 1, 0, 0, 1, 0, 0, 0, 0, 0, 0], EncodeLabels(labels, 0) + [0], [0, 1, 0, 1]);
    WrittenOutIsRead(packet, HEADER, labels);
  }

  // ---------------------------------------------------------------------------------------
  // Queries out, responses back
  // ---------------------------------------------------------------------------------------

  /** A query with one readable question: neither a response nor another operation. */
  predicate AsksOneQuestion(packet: seq<byte>) {
    && |packet| >= HEADER && packet[2] < 0x80 && (packet[2] / 8) % 16 == 0 && Word(packet, 4) == 1
    && QuestionEnd(packet).Some?
  }

  /** The message with its ID replaced. */
  function WithId(packet: seq<byte>, high: byte, low: byte): seq<byte>
    requires |packet| >= 2
  {
    [high, low] + packet[2..]
  }

  datatype Sent = Sent(id: nat, wire: seq<byte>)

  /** What goes to an HTTP resolver: the query with ID zero, and the ID to put back. */
  method HttpQuery(query: seq<byte>) returns (r: Option<Sent>)
    ensures r == if AsksOneQuestion(query) then Some(Sent(Word(query, 0), WithId(query, 0, 0))) else None
  {
    if |query| < HEADER { return None; }
    var flags := Word(query, 2);
    if flags / 0x8000 != 0 || (flags / 0x800) % 16 != 0 || Word(query, 4) != 1 { return None; }
    var name := ReadName(query, HEADER);
    if name.None? || name.value.next + 4 > |query| { return None; }
    return Some(Sent(Word(query, 0), [0, 0] + query[2..]));
  }

  method DoqQuery(query: seq<byte>) returns (r: Option<Sent>)
    ensures r.Some? <==> HEADER <= |query| <= MAX_MESSAGE && AsksOneQuestion(query) && Allowed(WithId(query, 0, 0))
    ensures r.Some? ==> r.value == Sent(Word(query, 0), WithId(query, 0, 0))
  {
    if !(HEADER <= |query| <= MAX_MESSAGE) { return None; }
    r := HttpQuery(query);
    if r.None? { return None; }
    var allowed := MessageAllowed(r.value.wire);
    if !allowed { return None; }
  }

  /** A response gets the ID of the query; anything else stays as it is. */
  method RestoreTransactionId(response: array<byte>, id: nat) returns (ok: bool)
    requires id < 65536
    modifies response
    ensures ok <==> response.Length >= HEADER && old(response[2]) >= 0x80
    ensures ok ==> response[..] == WithId(old(response[..]), id / 256, id % 256)
    ensures !ok ==> response[..] == old(response[..])
  {
    if response.Length < HEADER || response[2] < 0x80 { return false; }
    response[0], response[1] := id / 256, id % 256;
    return true;
  }

  method RestoreDoqResponse(response: array<byte>, id: nat) returns (ok: bool)
    requires id < 65536
    modifies response
    ensures ok <==> Allowed(old(response[..])) && old(response[..])[2] >= 0x80
    ensures ok ==> response[..] == WithId(old(response[..]), id / 256, id % 256)
    ensures !ok ==> response[..] == old(response[..])
  {
    ok := MessageAllowed(response[..]);
    if ok { ok := RestoreTransactionId(response, id); }
  }

  /** The way there and back: the response ends up with the two ID octets of the query, and otherwise as it came. */
  lemma RestoredIdIsTheQuerys(query: seq<byte>, response: seq<byte>)
    requires |query| >= HEADER && |response| >= HEADER
    ensures
      var id := Word(query, 0);
      var restored := WithId(response, id / 256, id % 256);
      && id < 65536 && |restored| == |response|
      && restored[..2] == query[..2] && restored[2..] == response[2..]
  {
  }

  /** Only the ID octets differ between a query and what is sent for it, and putting the ID back undoes it. */
  lemma SendingIsUndone(query: seq<byte>)
    requires |query| >= HEADER
    ensures var id := Word(query, 0); WithId(WithId(query, 0, 0), id / 256, id % 256) == query
  {
    var id := Word(query, 0);
    assert id / 256 == query[0] && id % 256 == query[1];
    assert [query[0], query[1]] + query[2..] == query;
  }
}
