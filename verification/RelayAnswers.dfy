/**
 Exactly which datagrams the UDP relay forwards, said on addresses as numbers and on the relay's tables: the address
 blocks that are never reached, what a name resolves to, and when a datagram or a reply goes out.
 */
module RelayAnswers {
  import opened Common
  import opened Socks5
  import opened UdpRelay

  // ---------------------------------------------------------------------------------------
  // Addresses as numbers
  // ---------------------------------------------------------------------------------------

  function Number(a: byte, b: byte, c: byte, d: byte): nat {
    ((a * 256 + b) * 256 + c) * 256 + d
  }

  /** The address lies in the block of `size` addresses that starts at a.b.c.d. */
  predicate In(n: nat, a: byte, b: byte, c: byte, d: byte, size: nat) {
    Number(a, b, c, d) <= n < Number(a, b, c, d) + size
  }

  /** The blocks of the IPv4 special-purpose registry that must not be reached, and everything from 224.0.0.0 on. */
  predicate Special(n: nat) {
    || In(n, 0, 0, 0, 0, 0x100_0000) || In(n, 10, 0, 0, 0, 0x100_0000) || In(n, 127, 0, 0, 0, 0x100_0000)
    || In(n, 100, 64, 0, 0, 0x40_0000) || In(n, 172, 16, 0, 0, 0x10_0000) || In(n, 169, 254, 0, 0, 0x1_0000)
    || In(n, 192, 168, 0, 0, 0x1_0000) || In(n, 198, 18, 0, 0, 0x2_0000) || In(n, 192, 0, 0, 0, 0x100)
    || In(n, 192, 0, 2, 0, 0x100) || In(n, 198, 51, 100, 0, 0x100) || In(n, 203, 0, 113, 0, 0x100)
    || Number(224, 0, 0, 0) <= n
  }

  /** An address on the public Internet: for IPv6, in 2000::/3 and not in 2001:db8::/32. */
  predicate Public(ip: Ip) {
    match ip
    case V4(o) => |o| == 4 && !Special(Number(o[0], o[1], o[2], o[3]))
    case V6(o) =>
      && |o| == 16
      && 0x2000 <= Be16(o[0], o[1]) <= 0x3FFF && !(Be16(o[0], o[1]) == 0x2001 && Be16(o[2], o[3]) == 0x0DB8)
  }

  lemma PublicV4(a: byte, b: byte, c: byte, d: byte)
    ensures AllowedV4(a, b, c, d) <==> !Special(Number(a, b, c, d))
  {
    InFirst(a, b, c, d);
    InSecond(a, b, c, d);
    InThird(a, b, c, d);
  }

  /** Blocks that the first octet decides. */
  lemma InFirst(a: byte, b: byte, c: byte, d: byte)
    ensures var n := Number(a, b, c, d);
      && (In(n, 0, 0, 0, 0, 0x100_0000) <==> a == 0) && (In(n, 10, 0, 0, 0, 0x100_0000) <==> a == 10)
      && (In(n, 127, 0, 0, 0, 0x100_0000) <==> a == 127) && (Number(224, 0, 0, 0) <= n <==> 224 <= a)
  {}

  /** Blocks that the first two octets decide. */
  lemma InSecond(a: byte, b: byte, c: byte, d: byte)
    ensures var n := Number(a, b, c, d);
      && (In(n, 100, 64, 0, 0, 0x40_0000) <==> a == 100 && 64 <= b < 128)
      && (In(n, 172, 16, 0, 0, 0x10_0000) <==> a == 172 && 16 <= b < 32)
      && (In(n, 169, 254, 0, 0, 0x1_0000) <==> a == 169 && b == 254)
      && (In(n, 192, 168, 0, 0, 0x1_0000) <==> a == 192 && b == 168)
      && (In(n, 198, 18, 0, 0, 0x2_0000) <==> a == 198 && 18 <= b < 20)
  {}

  /** Blocks that the first three octets decide. */
  lemma InThird(a: byte, b: byte, c: byte, d: byte)
    ensures var n := Number(a, b, c, d);
      && (In(n, 192, 0, 0, 0, 0x100) <==> a == 192 && b == 0 && c == 0)
      && (In(n, 192, 0, 2, 0, 0x100) <==> a == 192 && b == 0 && c == 2)
      && (In(n, 198, 51, 100, 0, 0x100) <==> a == 198 && b == 51 && c == 100)
      && (In(n, 203, 0, 113, 0, 0x100) <==> a == 203 && b == 0 && c == 113)
  {}

  lemma PublicV6(o: seq<byte>)
    requires |o| == 16
    ensures AllowedV6(o) <==> Public(V6(o))
  {}

  /** The relay's classification is this one. */
  lemma AllowedIsPublic(ip: Ip)
    ensures AllowedIp(ip) <==> Public(ip)
  {
    if ValidIp(ip) {
      if ip.V4? { PublicV4(ip.octets[0], ip.octets[1], ip.octets[2], ip.octets[3]); } else { PublicV6(ip.octets); }
    }
  }

  // ---------------------------------------------------------------------------------------
  // Resolving
  // ---------------------------------------------------------------------------------------

  ghost predicate FirstPublic(answers: seq<Ip>, ip: Ip) {
    Public(ip) && exists i :: 0 <= i < |answers| && answers[i] == ip && forall j :: 0 <= j < i ==> !Public(answers[j])
  }

  /** An address stands for itself, a name for the first public answer; nothing else is a destination. */
  lemma ResolvesIff(address: Address, port: nat, answers: Option<seq<Ip>>, s: Sock)
    ensures Resolve(address, port, answers) == Some(s) <==>
      && 0 < port && s.port == port
      && match address
         case ToIp(ip) => s.ip == ip && Public(ip)
         case ToHost(_) => answers.Some? && FirstPublic(answers.value, s.ip)
  {
    match address
    case ToIp(ip) => AllowedIsPublic(ip);
    case ToHost(_) => if answers.Some? { FirstAllowedIsFirstPublic(answers.value, s.ip); }
  }

  lemma FirstAllowedIsFirstPublic(answers: seq<Ip>, ip: Ip)
    ensures FirstAllowed(answers) == Some(ip) <==> FirstPublic(answers, ip)
  {
    AllowedIsPublic(ip);
    forall i | 0 <= i < |answers| ensures AllowedIp(answers[i]) <==> Public(answers[i]) { AllowedIsPublic(answers[i]); }
    var first := FirstAllowed(answers);
    if first.Some? {
      var i :| 0 <= i < |answers| && answers[i] == first.value && NoneAllowedBefore(answers, i);
      assert FirstPublic(answers, first.value);
      if FirstPublic(answers, ip) {
        var k :| 0 <= k < |answers| && answers[k] == ip && forall j :: 0 <= j < k ==> !Public(answers[j]);
        assert k == i;
      }
    }
  }

  // ---------------------------------------------------------------------------------------
  // Opening
  // ---------------------------------------------------------------------------------------

  /** An association opens for the peer's own address or for none in particular, and pins a port only if one is named. */
  lemma OpensIff(expected: Address, port: nat, peer: Sock)
    ensures Open(expected, port, peer).Some? <==>
      expected.ToIp? && (expected.ip == peer.ip || forall i :: 0 <= i < |expected.ip.octets| ==> expected.ip.octets[i] == 0)
    ensures Open(expected, port, peer).Some? ==>
      var r := Open(expected, port, peer).value;
      && r.peer == peer.ip && r.targets == {} && r.cache == map[] && !r.v6
      && r.client == if port == 0 then None else Some(Sock(peer.ip, port))
  {}

  // ---------------------------------------------------------------------------------------
  // Passing on
  // ---------------------------------------------------------------------------------------

  /** Where the key leads now: what was cached less than thirty seconds ago, else what it resolves to. */
  function Destination(cache: Cache, k: Key, io: ClientIo): Option<Sock> {
    if k in cache && io.asked < cache[k].stamp + 30000 then Some(cache[k].sock) else Resolve(k.address, k.port, io.answers)
  }

  /** The datagram comes from the peer, and from the client if that is known. */
  predicate IsClient(r: Relay, source: Sock) {
    source.ip == r.peer && (r.client == None || r.client == Some(source))
  }

  /** The socket for the destination's family is there or can be had. */
  predicate HasSocket(r: Relay, target: Sock, io: ClientIo) {
    target.ip.V4? || r.v6 || (io.binds && io.protects)
  }

  /**
   Exactly when a client's datagram goes out, and where: it is the client's, well formed, for a destination that is
   known or for which there is room among 64, while the tunnel is owned and the system goes along.
   */
  lemma SendsIff(r: Relay, source: Sock, bytes: seq<byte>, io: ClientIo, payload: seq<byte>, target: Sock)
    ensures ClientPass(r, source, bytes, io).effect == Sent(payload, target) <==>
      && IsClient(r, source) && io.owned && UdpRequest(bytes).Some? && payload == UdpRequest(bytes).value.payload
      && Destination(r.cache, Key(UdpRequest(bytes).value.address, UdpRequest(bytes).value.port), io) == Some(target)
      && (|r.targets| < 64 || target in r.targets)
      && io.stillOwned && HasSocket(r, target, io) && io.sends
  {}

  /** A datagram that is sent makes its sender the client and its destination a target, for good. */
  lemma SendingIsRemembered(r: Relay, source: Sock, bytes: seq<byte>, io: ClientIo)
    requires ClientPass(r, source, bytes, io).effect.Sent?
    ensures var pass := ClientPass(r, source, bytes, io);
      && pass.relay.client == Some(source) && pass.relay.targets == r.targets + {pass.effect.target}
      && pass.relay.v6 == (r.v6 || pass.effect.target.ip.V6?) && pass.relay.peer == r.peer
  {}

  /** Strangers, and datagrams that are not well formed, change nothing at all. */
  lemma StrangersAreIgnored(r: Relay, source: Sock, bytes: seq<byte>, io: ClientIo)
    requires !IsClient(r, source) || (io.owned && UdpRequest(bytes).None?)
    ensures ClientPass(r, source, bytes, io) == Pass(r, Quiet)
  {}

  /** What the client asked to be sent, written as section 7 of RFC 1928 has it, is sent as asked. */
  lemma RequestIsSentAsAsked(r: Relay, source: Sock, d: Datagram, io: ClientIo)
    requires IsClient(r, source) && io.owned && io.stillOwned && io.sends && io.binds && io.protects
    requires ValidAddress(d.address) && d.address.ToIp? && 0 < d.port < 65536 && Public(d.address.ip)
    requires Key(d.address, d.port) !in r.cache && |r.targets| < 64
    ensures ClientPass(r, source, [0, 0, 0] + EncodeTarget(d.address, d.port) + d.payload, io).effect ==
      Sent(d.payload, Sock(d.address.ip, d.port))
  {
    var bytes := [0, 0, 0] + EncodeTarget(d.address, d.port) + d.payload;
    RequestsAreEncapsulated(bytes, d);
    ResolvesIff(d.address, d.port, io.answers, Sock(d.address.ip, d.port));
    SendsIff(r, source, bytes, io, d.payload, Sock(d.address.ip, d.port));
  }

  /** Exactly when a reply goes back: it comes from a target, fits, and there is a client to have it. */
  lemma RepliesIff(r: Relay, source: Sock, payload: seq<byte>, owned: bool, sends: bool)
    requires ValidIp(source.ip) && source.port < 65536
    ensures var pass := TargetPass(r, source, payload, owned, sends);
      && pass.relay == r
      && (pass.effect.Replied? <==> source in r.targets && |payload| <= 65485 && owned && r.client.Some? && sends)
      && (pass.effect.Replied? ==> pass.effect.client == r.client.value)
      && (pass.effect.Quiet? <==> source !in r.targets || |payload| > 65485 || (owned && r.client.None?))
  {}
}
