/**
 Messages as they are meant: a question and three sections of records.  Written out, a message passes the check for
 travel without an ID exactly when what it says is right, whatever the check reads on its way.
 */
module DnsForms {
  import opened Common
  import opened DnsNames
  import opened DnsMessages

  // ---------------------------------------------------------------------------------------
  // Options
  // ---------------------------------------------------------------------------------------

  datatype DnsOption = DnsOption(code: nat, data: seq<byte>)

  predicate OptionFits(o: DnsOption) {
    o.code < 65536 && |o.data| < 65536
  }

  predicate OptionsFit(options: seq<DnsOption>) {
    forall i :: 0 <= i < |options| ==> OptionFits(options[i])
  }

  /** Two octets, the higher first. */
  function Octets(n: nat): seq<byte>
    requires n < 65536
  {
    [n / 256, n % 256]
  }

  function EncodeOption(o: DnsOption): seq<byte>
    requires OptionFits(o)
  {
    Octets(o.code) + Octets(|o.data|) + o.data
  }

  function EncodeOptions(options: seq<DnsOption>, k: nat): seq<byte>
    requires OptionsFit(options) && k <= |options|
    decreases |options| - k
  {
    if k == |options| then [] else EncodeOption(options[k]) + EncodeOptions(options, k + 1)
  }

  lemma SplitAt<T>(whole: seq<T>, at: nat, a: seq<T>, b: seq<T>)
    requires StandsAt(whole, at, a + b)
    ensures StandsAt(whole, at, a) && StandsAt(whole, at + |a|, b)
  {
    var both := a + b;
    SliceOfSlice(whole, at, at + |both|, 0, |a|);
    SliceOfSlice(whole, at, at + |both|, |a|, |both|);
    assert both[..|a|] == a && both[|a|..] == b;
  }

  lemma OctetsAreAWord(packet: seq<byte>, at: nat, n: nat)
    requires n < 65536 && StandsAt(packet, at, Octets(n))
    ensures at + 1 < |packet| && Word(packet, at) == n
  {
    var part := packet[at..at + 2];
    assert part == Octets(n) && packet[at] == part[0] && packet[at + 1] == part[1];
  }

  lemma EncodedOptionIsRead(data: seq<byte>, at: nat, o: DnsOption)
    requires OptionFits(o) && StandsAt(data, at, EncodeOption(o))
    ensures OptionEnd(data, at) == if o.code == 11 then None else Some(at + |EncodeOption(o)|)
  {
    SplitAt(data, at, Octets(o.code) + Octets(|o.data|), o.data);
    SplitAt(data, at, Octets(o.code), Octets(|o.data|));
    OctetsAreAWord(data, at, o.code);
    OctetsAreAWord(data, at + 2, |o.data|);
  }

  /** None of the options from the `k`-th on is TCP keepalive, code 11. */
  predicate NoKeepalive(options: seq<DnsOption>, k: nat) {
    forall i :: k <= i < |options| ==> options[i].code != 11
  }

  lemma NoKeepaliveFromHere(options: seq<DnsOption>, k: nat)
    requires k < |options|
    ensures NoKeepalive(options, k) <==> options[k].code != 11 && NoKeepalive(options, k + 1)
  {}

  lemma OptionsFromHere(data: seq<byte>, at: nat, o: DnsOption)
    requires OptionFits(o) && StandsAt(data, at, EncodeOption(o))
    ensures OptionsFrom(data, at) <==> o.code != 11 && OptionsFrom(data, at + |EncodeOption(o)|)
  {
    EncodedOptionIsRead(data, at, o);
  }

  /** Options written out are allowed exactly when none of them is TCP keepalive. */
  lemma {:induction false} EncodedOptionsAreAllowedIff(data: seq<byte>, at: nat, options: seq<DnsOption>, k: nat)
    requires OptionsFit(options) && k <= |options|
    requires StandsAt(data, at, EncodeOptions(options, k)) && at + |EncodeOptions(options, k)| == |data|
    ensures OptionsFrom(data, at) <==> NoKeepalive(options, k)
    decreases |options| - k
  {
    if k < |options| {
      SplitAt(data, at, EncodeOption(options[k]), EncodeOptions(options, k + 1));
      OptionsFromHere(data, at, options[k]);
      EncodedOptionsAreAllowedIff(data, at + |EncodeOption(options[k])|, options, k + 1);
      NoKeepaliveFromHere(options, k);
    }
  }

  // ---------------------------------------------------------------------------------------
  // Records
  // ---------------------------------------------------------------------------------------

  datatype Rdata = Bytes(bytes: seq<byte>) | Options(options: seq<DnsOption>)

  datatype Form = Form(owner: seq<Label>, kind: nat, rclass: nat, ttl: seq<byte>, rdata: Rdata)

  predicate NameFits(labels: seq<Label>) {
    (forall i :: 0 <= i < |labels| ==> Encodable(labels[i])) && WireLength(labels, 0) <= MAX_WIRE
  }

  predicate RdataFits(d: Rdata) {
    (d.Options? ==> OptionsFit(d.options)) && |RdataOctets(d)| < 65536
  }

  function RdataOctets(d: Rdata): seq<byte>
    requires d.Options? ==> OptionsFit(d.options)
  {
    match d
    case Bytes(bytes) => bytes
    case Options(options) => EncodeOptions(options, 0)
  }

  predicate FormFits(f: Form) {
    NameFits(f.owner) && f.kind < 65536 && f.rclass < 65536 && |f.ttl| == 4 && RdataFits(f.rdata)
  }

  predicate FormsFit(forms: seq<Form>) {
    forall i :: 0 <= i < |forms| ==> FormFits(forms[i])
  }

  function EncodeName(labels: seq<Label>): seq<byte>
    requires NameFits(labels)
  {
    EncodeLabels(labels, 0) + [0]
  }

  /** Type, class, time to live and length. */
  function EncodeFixed(f: Form): seq<byte>
    requires FormFits(f)
  {
    Octets(f.kind) + (Octets(f.rclass) + f.ttl) + Octets(|RdataOctets(f.rdata)|)
  }

  function EncodeForm(f: Form): seq<byte>
    requires FormFits(f)
  {
    EncodeName(f.owner) + (EncodeFixed(f) + RdataOctets(f.rdata))
  }

  function EncodeForms(forms: seq<Form>, k: nat): seq<byte>
    requires FormsFit(forms) && k <= |forms|
    decreases |forms| - k
  {
    if k == |forms| then [] else EncodeForm(forms[k]) + EncodeForms(forms, k + 1)
  }

  lemma NameIsRead(packet: seq<byte>, at: nat, labels: seq<Label>) returns (name: Name)
    requires NameFits(labels) && StandsAt(packet, at, EncodeName(labels))
    ensures NameAt(packet, at, 0, 0) == Some(name) && name.next == at + |EncodeName(labels)|
    ensures name.labels == [] <==> labels == []
  {
    EncodedLabelsAreRead(packet, at, labels);
    EncodedLength(labels, 0);
    name := NameAt(packet, at, 0, 0).value;
  }

  /** The fixed part: the words the check looks at. */
  lemma FixedIsRead(packet: seq<byte>, at: nat, f: Form)
    requires FormFits(f) && StandsAt(packet, at, EncodeFixed(f))
    ensures at + 10 <= |packet| && Word(packet, at) == f.kind && Word(packet, at + 8) == |RdataOctets(f.rdata)|
  {
    SplitAt(packet, at, Octets(f.kind) + (Octets(f.rclass) + f.ttl), Octets(|RdataOctets(f.rdata)|));
    SplitAt(packet, at, Octets(f.kind), Octets(f.rclass) + f.ttl);
    OctetsAreAWord(packet, at, f.kind);
    OctetsAreAWord(packet, at + 8, |RdataOctets(f.rdata)|);
  }

  lemma FormIsRead(packet: seq<byte>, at: nat, f: Form) returns (r: Record)
    requires FormFits(f) && StandsAt(packet, at, EncodeForm(f))
    ensures RecordAt(packet, at) == Some(r) && r.kind == f.kind && (r.owner == [] <==> f.owner == [])
    ensures r.end == at + |EncodeForm(f)| && packet[r.data..r.end] == RdataOctets(f.rdata)
  {
    var head := |EncodeName(f.owner)|;
    SplitAt(packet, at, EncodeName(f.owner), EncodeFixed(f) + RdataOctets(f.rdata));
    SplitAt(packet, at + head, EncodeFixed(f), RdataOctets(f.rdata));
    var name := NameIsRead(packet, at, f.owner);
    FixedIsRead(packet, at + head, f);
    r := RecordAt(packet, at).value;
  }

  /** The options of an OPT record are in order: whole, and none of them TCP keepalive. */
  ghost predicate OptionsRight(d: Rdata) {
    match d
    case Options(options) => NoKeepalive(options, 0)
    case Bytes(bytes) => exists cuts :: OptionTiles(bytes, 0, cuts)
  }

  /** An OPT record, type 41, stands in the additional section, is owned by the root, and its options are right. */
  ghost predicate FormRight(f: Form, index: nat, before: nat) {
    f.kind == 41 ==> before <= index && f.owner == [] && OptionsRight(f.rdata)
  }

  /** All records from the `k`-th on are right, and no two are OPT; none is if one was before. */
  ghost predicate FormsRight(forms: seq<Form>, k: nat, before: nat, sawOpt: bool) {
    && (forall i :: k <= i < |forms| ==> FormRight(forms[i], i, before))
    && (forall i, j :: k <= i < j < |forms| ==> !(forms[i].kind == 41 && forms[j].kind == 41))
    && (sawOpt ==> forall i :: k <= i < |forms| ==> forms[i].kind != 41)
  }

  lemma OptionsAreRightIff(d: Rdata)
    requires RdataFits(d)
    ensures OptionsFrom(RdataOctets(d), 0) <==> OptionsRight(d)
  {
    match d
    case Bytes(bytes) => TilesAreOptions(bytes, 0);
    case Options(options) =>
      assert StandsAt(EncodeOptions(options, 0), 0, EncodeOptions(options, 0));
      EncodedOptionsAreAllowedIff(EncodeOptions(options, 0), 0, options, 0);
  }

  lemma FormInPlaceIff(packet: seq<byte>, at: nat, f: Form, index: nat, before: nat)
    requires FormFits(f) && StandsAt(packet, at, EncodeForm(f))
    ensures RecordAt(packet, at).Some? && RecordAt(packet, at).value.end == at + |EncodeForm(f)|
    ensures RecordAt(packet, at).value.kind == f.kind
    ensures OptInPlace(packet, RecordAt(packet, at).value, index, before) <==> FormRight(f, index, before)
  {
    var r := FormIsRead(packet, at, f);
    OptionsAreRightIff(f.rdata);
  }

  lemma RightFromHere(forms: seq<Form>, k: nat, before: nat, sawOpt: bool)
    requires k < |forms|
    ensures FormsRight(forms, k, before, sawOpt) <==>
      && FormRight(forms[k], k, before) && !(forms[k].kind == 41 && sawOpt)
      && FormsRight(forms, k + 1, before, sawOpt || forms[k].kind == 41)
  {}

  /** Records written out one after the other pass exactly when they are right. */
  lemma {:induction false} FormsPassIff(packet: seq<byte>, at: nat, forms: seq<Form>, k: nat, c: Counts, sawOpt: bool)
    requires FormsFit(forms) && k <= |forms| == c.all
    requires StandsAt(packet, at, EncodeForms(forms, k)) && at + |EncodeForms(forms, k)| == |packet|
    ensures RecordsFrom(packet, at, k, c, sawOpt) <==> FormsRight(forms, k, c.before, sawOpt)
    decreases |forms| - k
  {
    if k < |forms| {
      SplitAt(packet, at, EncodeForm(forms[k]), EncodeForms(forms, k + 1));
      FormInPlaceIff(packet, at, forms[k], k, c.before);
      FormsPassIff(packet, at + |EncodeForm(forms[k])|, forms, k + 1, c, sawOpt || forms[k].kind == 41);
      RightFromHere(forms, k, c.before, sawOpt);
    }
  }

  // ---------------------------------------------------------------------------------------
  // Messages
  // ---------------------------------------------------------------------------------------

  /** `records` are the answers, then the authorities, then the additional ones. */
  datatype Message = Message(
    id: nat,
    flags: nat,
    question: seq<Label>,
    qtype: nat,
    qclass: nat,
    answers: nat,
    authorities: nat,
    records: seq<Form>)

  predicate MessageFits(m: Message) {
    && m.id < 65536 && m.flags < 65536 && NameFits(m.question) && m.qtype < 65536 && m.qclass < 65536
    && m.answers < 65536 && m.authorities < 65536
    && m.answers + m.authorities <= |m.records| < m.answers + m.authorities + 65536
    && FormsFit(m.records)
  }

  function EncodeHeader(m: Message): seq<byte>
    requires MessageFits(m)
  {
    (Octets(m.id) + Octets(m.flags) + Octets(1))
    + (Octets(m.answers) + Octets(m.authorities) + Octets(|m.records| - m.answers - m.authorities))
  }

  function EncodeQuestion(m: Message): seq<byte>
    requires MessageFits(m)
  {
    EncodeName(m.question) + (Octets(m.qtype) + Octets(m.qclass))
  }

  function Encode(m: Message): seq<byte>
    requires MessageFits(m)
  {
    EncodeHeader(m) + (EncodeQuestion(m) + EncodeForms(m.records, 0))
  }

  lemma HeaderIsRead(packet: seq<byte>, m: Message)
    requires MessageFits(m) && StandsAt(packet, 0, EncodeHeader(m))
    ensures |packet| >= 12 && packet[0] == m.id / 256 && packet[1] == m.id % 256 && Word(packet, 4) == 1
    ensures CountsOf(packet) == Counts(m.answers + m.authorities, |m.records|)
  {
    var more := |m.records| - m.answers - m.authorities;
    SplitAt(packet, 0, Octets(m.id) + Octets(m.flags) + Octets(1), Octets(m.answers) + Octets(m.authorities) + Octets(more));
    SplitAt(packet, 0, Octets(m.id) + Octets(m.flags), Octets(1));
    SplitAt(packet, 0, Octets(m.id), Octets(m.flags));
    SplitAt(packet, 6, Octets(m.answers) + Octets(m.authorities), Octets(more));
    SplitAt(packet, 6, Octets(m.answers), Octets(m.authorities));
    OctetsAreAWord(packet, 0, m.id);
    OctetsAreAWord(packet, 4, 1);
    OctetsAreAWord(packet, 6, m.answers);
    OctetsAreAWord(packet, 8, m.authorities);
    OctetsAreAWord(packet, 10, more);
  }

  lemma QuestionIsRead(packet: seq<byte>, m: Message)
    requires MessageFits(m) && StandsAt(packet, 12, EncodeQuestion(m))
    ensures QuestionEnd(packet) == Some(12 + |EncodeQuestion(m)|)
  {
    SplitAt(packet, 12, EncodeName(m.question), Octets(m.qtype) + Octets(m.qclass));
    var name := NameIsRead(packet, 12, m.question);
  }

  /** The records written out after the question pass by boundaries exactly when they are right. */
  lemma RecordsTileIff(packet: seq<byte>, at: nat, forms: seq<Form>, k: nat, c: Counts, sawOpt: bool)
    requires FormsFit(forms) && k <= |forms| == c.all
    requires StandsAt(packet, at, EncodeForms(forms, k)) && at + |EncodeForms(forms, k)| == |packet|
    ensures (exists cuts :: TilesFrom(packet, at, k, c, sawOpt, cuts)) <==> FormsRight(forms, k, c.before, sawOpt)
  {
    FormsPassIff(packet, at, forms, k, c, sawOpt);
    TilesAreRecords(packet, at, k, c, sawOpt);
  }

  lemma MessageParts(m: Message)
    requires MessageFits(m)
    ensures var packet := Encode(m);
      && StandsAt(packet, 0, EncodeHeader(m)) && StandsAt(packet, 12, EncodeQuestion(m))
      && StandsAt(packet, 12 + |EncodeQuestion(m)|, EncodeForms(m.records, 0))
      && 12 + |EncodeQuestion(m)| + |EncodeForms(m.records, 0)| == |packet|
  {
    var packet, rest := Encode(m), EncodeQuestion(m) + EncodeForms(m.records, 0);
    assert StandsAt(packet, 0, EncodeHeader(m) + rest);
    SplitAt(packet, 0, EncodeHeader(m), rest);
    SplitAt(packet, 12, EncodeQuestion(m), EncodeForms(m.records, 0));
  }

  /**
   Exactly which messages pass: the ID is zero, the whole fits 65535 octets, and there is at most one OPT record,
   in the additional section, owned by the root, with whole options none of which is TCP keepalive.
   */
  lemma EncodedMessageAllowedIff(m: Message)
    requires MessageFits(m)
    ensures Allowed(Encode(m)) <==>
      |Encode(m)| <= 65535 && m.id == 0 && FormsRight(m.records, 0, m.answers + m.authorities, false)
  {
    var packet := Encode(m);
    MessageParts(m);
    HeaderIsRead(packet, m);
    QuestionIsRead(packet, m);
    RecordsTileIff(packet, 12 + |EncodeQuestion(m)|, m.records, 0, CountsOf(packet), false);
  }

  /** Exactly which messages are taken for queries: neither a response nor another operation, so the upper five flags are off. */
  lemma EncodedMessageAsksIff(m: Message)
    requires MessageFits(m)
    ensures AsksOneQuestion(Encode(m)) <==> m.flags < 0x800
  {
    MessageParts(m);
    PacketAsksIff(Encode(m), m);
  }

  lemma PacketAsksIff(packet: seq<byte>, m: Message)
    requires MessageFits(m) && StandsAt(packet, 0, EncodeHeader(m)) && StandsAt(packet, 12, EncodeQuestion(m))
    ensures AsksOneQuestion(packet) <==> m.flags < 0x800
  {
    HeaderIsRead(packet, m);
    QuestionIsRead(packet, m);
    FlagsAreRead(packet, m);
    UpperFiveBits(m.flags);
  }

  lemma UpperFiveBits(flags: nat)
    requires flags < 65536
    ensures flags / 256 < 0x80 && (flags / 256 / 8) % 16 == 0 <==> flags < 0x800
  {
    var high := flags / 256;
    assert flags < 0x800 <==> high < 8;
  }


  lemma FlagsAreRead(packet: seq<byte>, m: Message)
    requires MessageFits(m) && StandsAt(packet, 0, EncodeHeader(m))
    ensures |packet| >= 12 && packet[2] == m.flags / 256
  {
    var part := packet[0..12];
    assert part == EncodeHeader(m) && part[2] == m.flags / 256 && packet[2] == part[2];
  }
}
