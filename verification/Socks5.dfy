/** SOCKS5 addresses and UDP datagrams, after sections 5 and 7 of RFC 1928. */
module Socks5 {
  import opened Common
  import opened DnsNames
  import opened Bootstrap

  datatype Ip = V4(octets: seq<byte>) | V6(octets: seq<byte>)

  datatype Address = ToIp(ip: Ip) | ToHost(name: seq<byte>)

  datatype Sock = Sock(ip: Ip, port: nat)

  predicate ValidIp(ip: Ip) {
    |ip.octets| == if ip.V4? then 4 else 16
  }

  /** Host names must be text that the bootstrap query accepts. */
  predicate ValidHost(name: seq<byte>) {
    |name| < 256 && Utf8(name) && Accepted(name)
  }

  predicate ValidAddress(a: Address) {
    match a
    case ToIp(ip) => ValidIp(ip)
    case ToHost(name) => ValidHost(name)
  }

  // ---------------------------------------------------------------------------------------
  // The codec
  // ---------------------------------------------------------------------------------------

  function EncodeAddress(a: Address): seq<byte>
    requires ValidAddress(a)
  {
    match a
    case ToIp(V4(octets)) => [1] + octets
    case ToIp(V6(octets)) => [4] + octets
    case ToHost(name) => var length: byte := |name|; [3, length] + name
  }

  function EncodePort(port: nat): seq<byte>
    requires port < 65536
  {
    [port / 256, port % 256]
  }

  function EncodeTarget(a: Address, port: nat): seq<byte>
    requires ValidAddress(a) && port < 65536
  {
    EncodeAddress(a) + EncodePort(port)
  }

  /** An address, a port, and how many octets they took. */
  datatype Parsed = Parsed(address: Address, port: nat, count: nat)

  /** The address alone, and where it ends; two more octets must follow for the port. */
  function ParseHead(bytes: seq<byte>): (r: Option<(Address, nat)>)
    ensures r.Some? ==> r.value.1 + 2 <= |bytes|
  {
    if bytes == [] then None
    else if bytes[0] == 1 && |bytes| >= 7 then Some((ToIp(V4(bytes[1..5])), 5))
    else if bytes[0] == 4 && |bytes| >= 19 then Some((ToIp(V6(bytes[1..17])), 17))
    else if bytes[0] == 3 && |bytes| >= 2 then
      var length: int := bytes[1];
      var end := 2 + length;
      if |bytes| < end + 2 || !Utf8(bytes[2..end]) || !Accepted(bytes[2..end]) then None
      else Some((ToHost(bytes[2..end]), end))
    else None
  }

  function ParseAddress(bytes: seq<byte>): (r: Option<Parsed>)
    ensures r.Some? ==> r.value.count <= |bytes|
  {
    var head := ParseHead(bytes);
    if head.None? then None
    else
      var end := head.value.1;
      Some(Parsed(head.value.0, Be16(bytes[end], bytes[end + 1]), end + 2))
  }

  lemma EncodedHeadParses(a: Address, rest: seq<byte>)
    requires ValidAddress(a) && |rest| >= 2
    ensures ParseHead(EncodeAddress(a) + rest) == Some((a, |EncodeAddress(a)|))
  {
    match a
    case ToIp(ip) => EncodedIpParses(ip, rest);
    case ToHost(name) => EncodedHostParses(name, rest);
  }

  lemma EncodedIpParses(ip: Ip, rest: seq<byte>)
    requires ValidIp(ip) && |rest| >= 2
    ensures ParseHead([if ip.V4? then 1 else 4] + ip.octets + rest) == Some((ToIp(ip), 1 + |ip.octets|))
  {
    var bytes := [if ip.V4? then 1 else 4] + ip.octets + rest;
    assert bytes[1..1 + |ip.octets|] == ip.octets;
  }

  lemma EncodedHostParses(name: seq<byte>, rest: seq<byte>)
    requires ValidHost(name) && |rest| >= 2
    ensures var length: byte := |name|; ParseHead([3, length] + name + rest) == Some((ToHost(name), 2 + |name|))
  {
    var length: byte := |name|;
    var bytes := [3, length] + name + rest;
    assert bytes[2..2 + |name|] == name;
  }

  lemma ParsedHeadEncodes(bytes: seq<byte>)
    requires ParseHead(bytes).Some?
    ensures var (a, end) := ParseHead(bytes).value; ValidAddress(a) && |EncodeAddress(a)| == end && bytes[..end] == EncodeAddress(a)
  {
    var (a, end) := ParseHead(bytes).value;
    if bytes[0] == 3 {
      var length: byte := |bytes[2..end]|;
      assert bytes[..end] == [3, length] + bytes[2..end];
    } else {
      assert bytes[..end] == [bytes[0]] + bytes[1..end];
    }
  }

  /** `bytes` begins with the encoding of this address and port, which takes `count` octets. */
  predicate BeginsWith(bytes: seq<byte>, p: Parsed) {
    && ValidAddress(p.address) && p.port < 65536
    && p.count == |EncodeTarget(p.address, p.port)| <= |bytes|
    && bytes[..p.count] == EncodeTarget(p.address, p.port)
  }

  lemma ParsedIsEncoded(bytes: seq<byte>)
    requires ParseAddress(bytes).Some?
    ensures BeginsWith(bytes, ParseAddress(bytes).value)
  {
    var p := ParseAddress(bytes).value;
    ParsedHeadEncodes(bytes);
    var end := p.count - 2;
    assert bytes[..p.count] == bytes[..end] + [bytes[end], bytes[end + 1]];
    assert p.port / 256 == bytes[end] && p.port % 256 == bytes[end + 1];
  }

  lemma EncodedIsParsed(bytes: seq<byte>, p: Parsed)
    requires BeginsWith(bytes, p)
    ensures ParseAddress(bytes) == Some(p)
  {
    var head, rest := EncodeAddress(p.address), EncodePort(p.port) + bytes[p.count..];
    assert bytes == head + rest by {
      assert bytes == bytes[..p.count] + bytes[p.count..];
    }
    EncodedHeadParses(p.address, rest);
    assert bytes[|head|] == rest[0] && bytes[|head| + 1] == rest[1];
  }

  /** Encoding and parsing are inverse: `bytes` begins with an encoding exactly when parsing says so. */
  lemma ParsesIffEncoded(bytes: seq<byte>, p: Parsed)
    ensures ParseAddress(bytes) == Some(p) <==> BeginsWith(bytes, p)
  {
    if ParseAddress(bytes) == Some(p) { ParsedIsEncoded(bytes); }
    if BeginsWith(bytes, p) { EncodedIsParsed(bytes, p); }
  }

  // ---------------------------------------------------------------------------------------
  // Datagrams
  // ---------------------------------------------------------------------------------------

  datatype Datagram = Datagram(address: Address, port: nat, payload: seq<byte>)

  function UdpRequest(bytes: seq<byte>): Option<Datagram> {
    if |bytes| < 4 || bytes[..3] != [0, 0, 0] then None
    else
      var p := ParseAddress(bytes[3..]);
      if p.None? || p.value.port == 0 then None
      else Some(Datagram(p.value.address, p.value.port, bytes[3 + p.value.count..]))
  }

  function Encapsulate(d: Datagram): seq<byte>
    requires ValidAddress(d.address) && d.port < 65536
  {
    [0, 0, 0] + EncodeTarget(d.address, d.port) + d.payload
  }

  /** Round trip both ways, for every address, port and payload: a request is accepted exactly as what was encapsulated. */
  lemma RequestsAreEncapsulated(bytes: seq<byte>, d: Datagram)
    ensures UdpRequest(bytes) == Some(d) <==>
            (ValidAddress(d.address) && 0 < d.port < 65536 && bytes == Encapsulate(d))
  {
    if UdpRequest(bytes) == Some(d) {
      var p := ParseAddress(bytes[3..]).value;
      ParsesIffEncoded(bytes[3..], p);
      SplitRequest(bytes, p.count);
    }
    if ValidAddress(d.address) && 0 < d.port < 65536 && bytes == Encapsulate(d) {
      var target := EncodeTarget(d.address, d.port);
      JoinRequest(bytes, target, d.payload);
      ParsesIffEncoded(bytes[3..], Parsed(d.address, d.port, |target|));
    }
  }

  lemma SplitRequest(bytes: seq<byte>, count: nat)
    requires 3 + count <= |bytes|
    ensures bytes == bytes[..3] + bytes[3..][..count] + bytes[3 + count..]
  {
  }

  lemma JoinRequest(bytes: seq<byte>, target: seq<byte>, payload: seq<byte>)
    requires bytes == [0, 0, 0] + target + payload
    ensures bytes[..3] == [0, 0, 0] && bytes[3..][..|target|] == target && bytes[3 + |target|..] == payload
  {
  }

  // ---------------------------------------------------------------------------------------
  // Reading from a stream
  // ---------------------------------------------------------------------------------------

  class Stream {
    var unread: seq<byte>

    constructor (bytes: seq<byte>)
      ensures unread == bytes
    {
      unread := bytes;
    }

    /** Exactly `count` octets, or none if the stream ends before that. */
    method ReadExact(count: nat) returns (r: Option<seq<byte>>)
      modifies this
      ensures r.Some? <==> count <= old(|unread|)
      ensures r.Some? ==> r.value == old(unread)[..count] && unread == old(unread)[count..]
      ensures r.None? ==> unread == old(unread)
    {
      if |unread| < count { return None; }
      r := Some(unread[..count]);
      unread := unread[count..];
    }

    /** The address and port at the front of the stream; exactly their octets are consumed. */
    method ReadAddress() returns (r: Option<(Address, nat)>)
      modifies this
      ensures r.Some? <==> ParseAddress(old(unread)).Some?
      ensures r.Some? ==>
        var p := ParseAddress(old(unread)).value;
        r.value == (p.address, p.port) && unread == old(unread)[p.count..]
    {
      ParsingNeeds(unread);
      var bytes := ReadAll();
      if bytes.None? { return None; }
      var p := ParseAddress(bytes.value);
      if p.None? { return None; }
      return Some((p.value.address, p.value.port));
    }

    /** The octets that the kind, and for a host its length octet, call for. */
    method ReadAll() returns (bytes: Option<seq<byte>>)
      modifies this
      ensures bytes.Some? <==> Needed(old(unread)).Some? && Needed(old(unread)).value <= old(|unread|)
      ensures bytes.Some? ==> var n := Needed(old(unread)).value; bytes.value == old(unread)[..n] && unread == old(unread)[n..]
    {
      var kind := ReadExact(1);
      if kind.None? { return None; }
      if kind.value[0] == 3 {
        var length := ReadExact(1);
        if length.None? { return None; }
        var size: int := length.value[0];
        var rest := ReadExact(size + 2);
        if rest.None? { return None; }
        return Some(kind.value + length.value + rest.value);
      }
      if kind.value[0] != 1 && kind.value[0] != 4 { return None; }
      var rest := ReadExact(if kind.value[0] == 1 then 6 else 18);
      if rest.None? { return None; }
      return Some(kind.value + rest.value);
    }
  }

  /** How many octets the address and port at the front call for. */
  function Needed(bytes: seq<byte>): Option<nat> {
    if bytes == [] then None
    else if bytes[0] == 1 then Some(7)
    else if bytes[0] == 4 then Some(19)
    else if bytes[0] == 3 && |bytes| >= 2 then (var length: int := bytes[1]; Some(length + 4))
    else None
  }

  lemma ParsingNeeds(all: seq<byte>)
    ensures ParseAddress(all).Some? ==> Needed(all) == Some(ParseAddress(all).value.count)
    ensures Needed(all).Some? && Needed(all).value <= |all| ==> ParseAddress(all[..Needed(all).value]) == ParseAddress(all)
  {
    if Needed(all).Some? && Needed(all).value <= |all| {
      PrefixParses(all, Needed(all).value);
    }
  }

  lemma PrefixParses(all: seq<byte>, n: nat)
    requires Needed(all) == Some(n) && n <= |all|
    ensures ParseAddress(all[..n]) == ParseAddress(all)
  {
    var bytes := all[..n];
    assert bytes == all[0..n] && bytes[0] == all[0];
    if all[0] == 3 {
      assert bytes[1] == all[1];
      SliceOfSlice(all, 0, n, 2, n - 2);
    } else {
      SliceOfSlice(all, 0, n, 1, n - 2);
    }
    assert ParseHead(bytes) == ParseHead(all);
    assert bytes[n - 2] == all[n - 2] && bytes[n - 1] == all[n - 1];
  }
}
