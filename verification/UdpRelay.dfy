/**
 The UDP association of the local bridge: datagrams of one client go out to named targets, and replies of
 those targets come back to it.  The loop is modelled by its passes: one datagram from the relay socket, or one
 from an outbound socket, with the answers of the system around it given by the event.
 */
module UdpRelay {
  import opened Common
  import opened Socks5

  const MAX_UDP_TARGETS: nat := 64
  const FRESH_MILLIS: nat := 30000
  const MAX_REPLY: nat := 65507 - 22

  // ---------------------------------------------------------------------------------------
  // Addresses that may be reached
  // ---------------------------------------------------------------------------------------

  predicate AllowedV4(a: byte, b: byte, c: byte, d: byte) {
    && a != 10 && !(a == 172 && 16 <= b <= 31) && !(a == 192 && b == 168)
    && a != 127 && !(a == 169 && b == 254) && !(a == 0 && b == 0 && c == 0 && d == 0)
    && !(224 <= a <= 239) && !(a == 255 && b == 255 && c == 255 && d == 255)
    && !(a == 192 && b == 0 && c == 2) && !(a == 198 && b == 51 && c == 100) && !(a == 203 && b == 0 && c == 113)
    && 0 < a < 224
    && !(a == 100 && 64 <= b < 128) && !(a == 198 && (b == 18 || b == 19)) && !(a == 192 && b == 0 && c == 0)
  }

  /** Global unicast without the documentation prefix; every other class lies outside 2000::/3. */
  predicate AllowedV6(o: seq<byte>)
    requires |o| == 16
  {
    && 0x20 <= o[0] <= 0x3F
    && !(o[0] == 0x20 && o[1] == 0x01 && o[2] == 0x0d && o[3] == 0xb8)
  }

  predicate AllowedIp(ip: Ip) {
    ValidIp(ip) && if ip.V4? then AllowedV4(ip.octets[0], ip.octets[1], ip.octets[2], ip.octets[3]) else AllowedV6(ip.octets)
  }

  /** A destination that a datagram may be sent to. */
  predicate Safe(s: Sock) {
    AllowedIp(s.ip) && 0 < s.port < 65536
  }

  // ---------------------------------------------------------------------------------------
  // Resolution, and its cache
  // ---------------------------------------------------------------------------------------

  datatype Key = Key(address: Address, port: nat)

  datatype Entry = Entry(sock: Sock, stamp: nat)

  type Cache = map<Key, Entry>

  predicate Fresh(e: Entry, now: nat) {
    now < e.stamp + FRESH_MILLIS
  }

  function Kept(cache: Cache, now: nat): Cache {
    map k | k in cache && Fresh(cache[k], now) :: cache[k]
  }

  function Stored(cache: Cache, k: Key, sock: Sock, now: nat): Cache {
    if |cache| < MAX_UDP_TARGETS then cache[k := Entry(sock, now)] else cache
  }

  /**
   What was stored in a cache that is not full is found again for less than thirty seconds, under its own key and
   no longer than that; entries under other keys are kept or dropped as if nothing had been stored.
   */
  lemma StoredIsFoundWhileFresh(cache: Cache, k: Key, sock: Sock, now: nat, later: nat, other: Key)
    requires |cache| < MAX_UDP_TARGETS
    ensures
      var found := Kept(Stored(cache, k, sock, now), later);
      && (k in found <==> later < now + FRESH_MILLIS) && (k in found ==> found[k].sock == sock)
      && (other != k ==> (other in found <==> other in Kept(cache, later)) && (other in found ==> found[other] == cache[other]))
      && |Stored(cache, k, sock, now)| <= MAX_UDP_TARGETS
  {
    PuttingKey(cache, k, Entry(sock, now));
  }

  class ResolutionCache {
    var entries: Cache

    constructor ()
      ensures entries == map[]
    {
      entries := map[];
    }

    /** Drops what is older than the limit, then looks for exactly this address and port. */
    method Get(address: Address, port: nat, now: nat) returns (sock: Option<Sock>)
      modifies this
      ensures entries == Kept(old(entries), now)
      ensures sock.Some? <==> Key(address, port) in entries
      ensures sock.Some? ==> sock.value == entries[Key(address, port)].sock && Fresh(entries[Key(address, port)], now)
    {
      entries := map k | k in entries && Fresh(entries[k], now) :: entries[k];
      if Key(address, port) in entries { return Some(entries[Key(address, port)].sock); }
      return None;
    }

    method Insert(address: Address, port: nat, sock: Sock, now: nat)
      modifies this
      ensures entries == Stored(old(entries), Key(address, port), sock, now)
      ensures old(|entries|) <= MAX_UDP_TARGETS ==> |entries| <= MAX_UDP_TARGETS
    {
      PuttingKey(entries, Key(address, port), Entry(sock, now));
      if |entries| < MAX_UDP_TARGETS { entries := entries[Key(address, port) := Entry(sock, now)]; }
    }
  }

  function FirstAllowed(answers: seq<Ip>): (ip: Option<Ip>)
    ensures ip.Some? ==> AllowedIp(ip.value)
    ensures ip.Some? ==> exists i :: 0 <= i < |answers| && answers[i] == ip.value && NoneAllowedBefore(answers, i)
    ensures ip.None? ==> forall i :: 0 <= i < |answers| ==> !AllowedIp(answers[i])
  {
    if answers == [] then None
    else if AllowedIp(answers[0]) then
      assert NoneAllowedBefore(answers, 0);
      Some(answers[0])
    else
      var rest := FirstAllowed(answers[1..]);
      assert rest.Some? ==> exists i :: 0 <= i < |answers| && answers[i] == rest.value && NoneAllowedBefore(answers, i) by {
        if rest.Some? {
          var i :| 0 <= i < |answers[1..]| && answers[1..][i] == rest.value && NoneAllowedBefore(answers[1..], i);
          NoneBeforeShifts(answers, i);
        }
      }
      rest
  }

  predicate NoneAllowedBefore(answers: seq<Ip>, n: int) {
    forall j :: 0 <= j < n && j < |answers| ==> !AllowedIp(answers[j])
  }

  lemma NoneBeforeShifts(answers: seq<Ip>, i: nat)
    requires answers != [] && !AllowedIp(answers[0]) && i < |answers[1..]| && NoneAllowedBefore(answers[1..], i)
    ensures answers[i + 1] == answers[1..][i] && NoneAllowedBefore(answers, i + 1)
  {
    forall j | 0 <= j < i + 1 ensures !AllowedIp(answers[j]) {
      if j > 0 { assert answers[j] == answers[1..][j - 1]; }
    }
  }

  /** The destination for an address; `answers` are what the resolver said about a host, if it said anything usable. */
  function Resolve(address: Address, port: nat, answers: Option<seq<Ip>>): Option<Sock> {
    if port == 0 then None
    else
      var ip := match address
        case ToIp(ip) => Some(ip)
        case ToHost(_) => if answers.None? then None else FirstAllowed(answers.value);
      if ip.None? || !AllowedIp(ip.value) then None else Some(Sock(ip.value, port))
  }

  // ---------------------------------------------------------------------------------------
  // One pass of the loop
  // ---------------------------------------------------------------------------------------

  datatype Relay = Relay(peer: Ip, client: Option<Sock>, targets: set<Sock>, cache: Cache, v6: bool)

  /** What the system answers while a client datagram is handled; the two times are those of lookup and insertion. */
  datatype ClientIo = ClientIo(owned: bool, asked: nat, answers: Option<seq<Ip>>, resolved: nat, stillOwned: bool,
                               binds: bool, protects: bool, sends: bool)

  datatype Event =
    | FromClient(source: Sock, bytes: seq<byte>, io: ClientIo)
    | FromTarget(source: Sock, payload: seq<byte>, owned: bool, sends: bool)

  /** Source addresses that the system reports. */
  predicate ValidEvent(e: Event) {
    ValidIp(e.source.ip) && e.source.port < 65536
  }

  datatype Effect = Quiet | Sent(payload: seq<byte>, target: Sock) | Replied(packet: seq<byte>, client: Sock) | Failed

  datatype Pass = Pass(relay: Relay, effect: Effect)

  /** The association starts only for the peer itself; a port in the request pins the client at once. */
  function Open(expected: Address, port: nat, peer: Sock): Option<Relay> {
    match expected
    case ToIp(ip) =>
      if Unspecified(ip) || ip == peer.ip
      then Some(Relay(peer.ip, if port != 0 then Some(Sock(peer.ip, port)) else None, {}, map[], false))
      else None
    case ToHost(_) => None
  }

  predicate Unspecified(ip: Ip) {
    forall i :: 0 <= i < |ip.octets| ==> ip.octets[i] == 0
  }

  predicate Stranger(r: Relay, source: Sock) {
    source.ip != r.peer || (r.client.Some? && r.client.value != source)
  }

  /** The destination of a client datagram, and the cache afterwards. */
  datatype Lookup = Lookup(target: Option<Sock>, cache: Cache)

  function LookUp(cache: Cache, k: Key, io: ClientIo): Lookup {
    var kept := Kept(cache, io.asked);
    if k in kept then Lookup(Some(kept[k].sock), kept)
    else
      var target := Resolve(k.address, k.port, io.answers);
      if target.None? then Lookup(None, kept) else Lookup(target, Stored(kept, k, target.value, io.resolved))
  }

  function Deliver(r: Relay, source: Sock, payload: seq<byte>, target: Sock, io: ClientIo): Pass {
    if |r.targets| >= MAX_UDP_TARGETS && target !in r.targets then Pass(r, Quiet)
    else
      var known := r.(client := if r.client.Some? then r.client else Some(source), targets := r.targets + {target});
      if !io.stillOwned then Pass(known, Failed)
      else if target.ip.V6? && !known.v6 && !io.binds then Pass(known, Quiet)
      else if target.ip.V6? && !known.v6 && !io.protects then Pass(known, Failed)
      else if !io.sends then Pass(known.(v6 := known.v6 || target.ip.V6?), Failed)
      else Pass(known.(v6 := known.v6 || target.ip.V6?), Sent(payload, target))
  }

  function ClientPass(r: Relay, source: Sock, bytes: seq<byte>, io: ClientIo): Pass {
    if Stranger(r, source) then Pass(r, Quiet)
    else if !io.owned then Pass(r, Failed)
    else
      var d := UdpRequest(bytes);
      if d.None? then Pass(r, Quiet)
      else
        var found := LookUp(r.cache, Key(d.value.address, d.value.port), io);
        if found.target.None? then Pass(r.(cache := found.cache), Failed)
        else Deliver(r.(cache := found.cache), source, d.value.payload, found.target.value, io)
  }

  function ReplyPacket(source: Sock, payload: seq<byte>): seq<byte>
    requires ValidIp(source.ip) && source.port < 65536
  {
    [0, 0, 0] + EncodeTarget(ToIp(source.ip), source.port) + payload
  }

  function TargetPass(r: Relay, source: Sock, payload: seq<byte>, owned: bool, sends: bool): Pass
    requires ValidIp(source.ip) && source.port < 65536
  {
    if |payload| > MAX_REPLY || source !in r.targets then Pass(r, Quiet)
    else if !owned then Pass(r, Failed)
    else if r.client.None? then Pass(r, Quiet)
    else if !sends then Pass(r, Failed)
    else Pass(r, Replied(ReplyPacket(source, payload), r.client.value))
  }

  function Step(r: Relay, e: Event): Pass
    requires ValidEvent(e)
  {
    match e
    case FromClient(source, bytes, io) => ClientPass(r, source, bytes, io)
    case FromTarget(source, payload, owned, sends) => TargetPass(r, source, payload, owned, sends)
  }

  // ---------------------------------------------------------------------------------------
  // The loop's variables
  // ---------------------------------------------------------------------------------------

  class Association {
    const peer: Ip
    const resolutions: ResolutionCache
    var client: Option<Sock>
    var targets: set<Sock>
    var v6: bool

    constructor (r: Relay)
      requires r.cache == map[]
      ensures State() == r && fresh(resolutions)
    {
      peer, client, targets, v6 := r.peer, r.client, r.targets, r.v6;
      resolutions := new ResolutionCache();
    }

    function State(): Relay
      reads this, resolutions
    {
      Relay(peer, client, targets, resolutions.entries, v6)
    }

    /** The datagram came from the relay socket. */
    method HandleClient(source: Sock, bytes: seq<byte>, io: ClientIo) returns (effect: Effect)
      modifies this, resolutions
      ensures Pass(State(), effect) == ClientPass(old(State()), source, bytes, io)
    {
      if source.ip != peer || (client.Some? && source != client.value) { return Quiet; }
      if !io.owned { return Failed; }
      var request := UdpRequest(bytes);
      if request.None? { return Quiet; }
      var d := request.value;
      var target := resolutions.Get(d.address, d.port, io.asked);
      if target.None? {
        target := Resolve(d.address, d.port, io.answers);
        if target.None? { return Failed; }
        resolutions.Insert(d.address, d.port, target.value, io.resolved);
      }
      effect := Forward(source, d.payload, target.value, io);
    }

    method Forward(source: Sock, payload: seq<byte>, target: Sock, io: ClientIo) returns (effect: Effect)
      modifies this
      ensures Pass(State(), effect) == Deliver(old(State()), source, payload, target, io)
    {
      if |targets| >= MAX_UDP_TARGETS && target !in targets { return Quiet; }
      if client.None? { client := Some(source); }
      targets := targets + {target};
      if !io.stillOwned { return Failed; }
      if target.ip.V6? {
        if !v6 {
          if !io.binds { return Quiet; }
          if !io.protects { return Failed; }
          v6 := true;
        }
      }
      if !io.sends { return Failed; }
      return Sent(payload, target);
    }

    /** The datagram came from an outbound socket. */
    method HandleTarget(source: Sock, payload: seq<byte>, owned: bool, sends: bool) returns (effect: Effect)
      requires ValidIp(source.ip) && source.port < 65536
      ensures Pass(State(), effect) == TargetPass(State(), source, payload, owned, sends)
    {
      if |payload| > MAX_REPLY || source !in targets { return Quiet; }
      if !owned { return Failed; }
      if client.None? { return Quiet; }
      var packet := [0, 0, 0] + EncodeTarget(ToIp(source.ip), source.port) + payload;
      if !sends { return Failed; }
      return Replied(packet, client.value);
    }
  }
}
