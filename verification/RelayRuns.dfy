/** What holds over every run of the UDP relay. */
module RelayRuns {
  import opened Common
  import opened Socks5
  import opened UdpRelay

  // ---------------------------------------------------------------------------------------
  // Every state
  // ---------------------------------------------------------------------------------------

  /** A cached destination is one that resolving its key may give. */
  predicate EntryFits(k: Key, e: Entry) {
    Safe(e.sock) && e.sock.port == k.port && (k.address.ToIp? ==> e.sock.ip == k.address.ip)
  }

  predicate CacheFits(cache: Cache) {
    |cache| <= MAX_UDP_TARGETS && forall k :: k in cache ==> EntryFits(k, cache[k])
  }

  ghost predicate Inv(r: Relay) {
    && |r.targets| <= MAX_UDP_TARGETS && (forall t :: t in r.targets ==> Safe(t))
    && CacheFits(r.cache)
    && (r.client.Some? ==> r.client.value.ip == r.peer)
  }

  lemma LookUpFits(cache: Cache, k: Key, io: ClientIo)
    requires CacheFits(cache) && k.port < 65536
    ensures CacheFits(LookUp(cache, k, io).cache)
    ensures LookUp(cache, k, io).target.Some? ==> Safe(LookUp(cache, k, io).target.value)
  {
    var kept := Kept(cache, io.asked);
    assert kept.Keys <= cache.Keys;
    ShrinkingKeys(cache, kept);
    var target := Resolve(k.address, k.port, io.answers);
    if k !in kept && target.Some? { PuttingKey(kept, k, Entry(target.value, io.resolved)); }
  }

  lemma DeliverKeepsInv(r: Relay, source: Sock, payload: seq<byte>, target: Sock, io: ClientIo)
    requires Inv(r) && Safe(target) && source.ip == r.peer
    ensures Inv(Deliver(r, source, payload, target, io).relay)
  {
    assert |r.targets + {target}| <= if target in r.targets then |r.targets| else |r.targets| + 1 by {
      if target in r.targets { assert r.targets + {target} == r.targets; }
    }
  }

  lemma StepKeepsInv(r: Relay, e: Event)
    requires Inv(r) && ValidEvent(e)
    ensures Inv(Step(r, e).relay)
  {
    if e.FromClient? && !Stranger(r, e.source) && UdpRequest(e.bytes).Some? {
      var d := UdpRequest(e.bytes).value;
      RequestsAreEncapsulated(e.bytes, d);
      var found := LookUp(r.cache, Key(d.address, d.port), e.io);
      LookUpFits(r.cache, Key(d.address, d.port), e.io);
      if found.target.Some? { DeliverKeepsInv(r.(cache := found.cache), e.source, d.payload, found.target.value, e.io); }
    }
  }

  // ---------------------------------------------------------------------------------------
  // Every pass
  // ---------------------------------------------------------------------------------------

  /** The destination a client datagram is accepted for. */
  function TargetOf(r: Relay, e: Event): Option<Sock> {
    if !e.FromClient? || Stranger(r, e.source) || !e.io.owned || UdpRequest(e.bytes).None? then None
    else
      var d := UdpRequest(e.bytes).value;
      LookUp(r.cache, Key(d.address, d.port), e.io).target
  }

  /** A datagram leaves only for a safe destination: the one its own address stands for, with its own payload. */
  lemma SentIsSafe(r: Relay, e: Event)
    requires Inv(r) && ValidEvent(e) && Step(r, e).effect.Sent?
    ensures
      var effect := Step(r, e).effect;
      && TargetOf(r, e) == Some(effect.target) && Safe(effect.target) && effect.target in Step(r, e).relay.targets
      && UdpRequest(e.bytes).Some? && effect.payload == UdpRequest(e.bytes).value.payload
      && effect.target.port == UdpRequest(e.bytes).value.port
      && Step(r, e).relay.client == Some(e.source)
  {
    var d := UdpRequest(e.bytes).value;
    RequestsAreEncapsulated(e.bytes, d);
    LookUpFits(r.cache, Key(d.address, d.port), e.io);
  }

  /**
   A reply goes to the client alone, and comes from a destination it had named; the packet reads back as that
   destination and its payload, and is small enough to be one datagram.
   */
  lemma RepliedIsFromATarget(r: Relay, e: Event)
    requires Inv(r) && ValidEvent(e) && Step(r, e).effect.Replied?
    ensures
      var effect := Step(r, e).effect;
      && e.FromTarget? && e.source in r.targets && r.client == Some(effect.client)
      && UdpRequest(effect.packet) == Some(Datagram(ToIp(e.source.ip), e.source.port, e.payload))
      && |effect.packet| <= 65507
  {
    var d := Datagram(ToIp(e.source.ip), e.source.port, e.payload);
    assert Safe(e.source);
    RequestsAreEncapsulated(Step(r, e).effect.packet, d);
  }

  /** Delivering changes the client once, adds its own target, and leaves the cache alone. */
  lemma DeliverGrows(r: Relay, source: Sock, payload: seq<byte>, target: Sock, io: ClientIo)
    ensures
      var now := Deliver(r, source, payload, target, io).relay;
      && now.peer == r.peer && now.cache == r.cache
      && (now.targets == r.targets || now.targets == r.targets + {target})
      && (now.client == r.client || (r.client.None? && now.client == Some(source)))
  {
  }

  /** A pass leaves the targets and the client as they were, or adds the one named and pins the one that sent. */
  lemma StepGrows(r: Relay, e: Event)
    requires ValidEvent(e)
    ensures
      var now := Step(r, e).relay;
      && now.peer == r.peer
      && (now.targets == r.targets || (TargetOf(r, e).Some? && now.targets == r.targets + {TargetOf(r, e).value}))
      && (now.client == r.client || (r.client.None? && now.client == Some(e.source) && e.source.ip == r.peer))
  {
    if TargetOf(r, e).Some? {
      var d := UdpRequest(e.bytes).value;
      var found := LookUp(r.cache, Key(d.address, d.port), e.io);
      DeliverGrows(r.(cache := found.cache), e.source, d.payload, found.target.value, e.io);
    }
  }

  /** Event `e` is a datagram accepted from the client, and resolved key `k` to what `entry` holds. */
  ghost predicate ResolvedBy(r: Relay, e: Event, k: Key, entry: Entry) {
    && TargetOf(r, e) == Some(entry.sock) && UdpRequest(e.bytes).Some?
    && k == Key(UdpRequest(e.bytes).value.address, UdpRequest(e.bytes).value.port)
    && Resolve(k.address, k.port, e.io.answers) == Some(entry.sock) && e.io.resolved == entry.stamp
  }

  lemma LookUpOrigin(cache: Cache, asked: Key, io: ClientIo, k: Key)
    requires k in LookUp(cache, asked, io).cache
    ensures
      var entry := LookUp(cache, asked, io).cache[k];
      || (k in cache && entry == cache[k])
      || (k == asked && Resolve(k.address, k.port, io.answers) == Some(entry.sock) && io.resolved == entry.stamp
          && LookUp(cache, asked, io).target == Some(entry.sock))
  {
  }

  lemma CacheOrigin(r: Relay, e: Event, k: Key)
    requires ValidEvent(e) && k in Step(r, e).relay.cache
    ensures (k in r.cache && Step(r, e).relay.cache[k] == r.cache[k]) || ResolvedBy(r, e, k, Step(r, e).relay.cache[k])
  {
    if e.FromClient? && !Stranger(r, e.source) && e.io.owned && UdpRequest(e.bytes).Some? {
      var d := UdpRequest(e.bytes).value;
      var asked := Key(d.address, d.port);
      var found := LookUp(r.cache, asked, e.io);
      if found.target.Some? { DeliverGrows(r.(cache := found.cache), e.source, d.payload, found.target.value, e.io); }
      assert Step(r, e).relay.cache == found.cache;
      LookUpOrigin(r.cache, asked, e.io, k);
    }
  }

  // ---------------------------------------------------------------------------------------
  // Every run
  // ---------------------------------------------------------------------------------------

  predicate StepAt(states: seq<Relay>, events: seq<Event>, i: nat)
    requires i < |events| && |states| == |events| + 1
  {
    ValidEvent(events[i]) && states[i + 1] == Step(states[i], events[i]).relay
  }

  ghost predicate IsRun(states: seq<Relay>, events: seq<Event>) {
    && |states| == |events| + 1
    && (exists expected, port, peer :: Open(expected, port, peer) == Some(states[0]))
    && forall i :: 0 <= i < |events| ==> StepAt(states, events, i)
  }

  lemma {:induction false} ReachableInv(states: seq<Relay>, events: seq<Event>, n: nat)
    requires IsRun(states, events) && n < |states|
    ensures Inv(states[n])
    decreases n
  {
    if n > 0 {
      ReachableInv(states, events, n - 1);
      assert StepAt(states, events, n - 1);
      StepKeepsInv(states[n - 1], events[n - 1]);
    }
  }

  /** Every target was named before, by a datagram of the client that was accepted for it. */
  lemma {:induction false} TargetsWereNamed(states: seq<Relay>, events: seq<Event>, n: nat, t: Sock) returns (j: nat)
    requires IsRun(states, events) && n < |states| && t in states[n].targets
    ensures j < n && TargetOf(states[j], events[j]) == Some(t)
    decreases n
  {
    if n == 0 {
      assert false;
    } else {
      assert StepAt(states, events, n - 1);
      StepGrows(states[n - 1], events[n - 1]);
      if t in states[n - 1].targets {
        j := TargetsWereNamed(states, events, n - 1, t);
      } else {
        j := n - 1;
      }
    }
  }

  /** Every cached entry was put there by resolving exactly its key. */
  lemma {:induction false} EntriesWereResolved(states: seq<Relay>, events: seq<Event>, n: nat, k: Key) returns (j: nat)
    requires IsRun(states, events) && n < |states| && k in states[n].cache
    ensures j < n && ResolvedBy(states[j], events[j], k, states[n].cache[k])
    decreases n
  {
    if n == 0 {
      assert false;
    } else {
      assert StepAt(states, events, n - 1);
      CacheOrigin(states[n - 1], events[n - 1], k);
      if k in states[n - 1].cache && states[n].cache[k] == states[n - 1].cache[k] {
        j := EntriesWereResolved(states, events, n - 1, k);
      } else {
        j := n - 1;
      }
    }
  }

  lemma {:induction false} ClientStays(states: seq<Relay>, events: seq<Event>, i: nat, n: nat)
    requires IsRun(states, events) && i <= n < |states| && states[i].client.Some?
    ensures states[n].client == states[i].client && states[n].peer == states[i].peer
    decreases n - i
  {
    if i < n {
      ClientStays(states, events, i, n - 1);
      assert StepAt(states, events, n - 1);
      StepGrows(states[n - 1], events[n - 1]);
    }
  }

  /**
   Over every run: a datagram that is sent goes to a safe destination, which was resolved for exactly the address
   and port in the datagram, in the same pass or in an earlier one less than thirty seconds before.
   */
  lemma SendsAreFreshlyResolved(states: seq<Relay>, events: seq<Event>, i: nat) returns (j: nat)
    requires IsRun(states, events) && i < |events|
    requires ValidEvent(events[i]) && Step(states[i], events[i]).effect.Sent?
    ensures UdpRequest(events[i].bytes).Some? && Safe(Step(states[i], events[i]).effect.target)
    ensures
      var d, target := UdpRequest(events[i].bytes).value, Step(states[i], events[i]).effect.target;
      && j <= i && events[j].FromClient?
      && ResolvedBy(states[j], events[j], Key(d.address, d.port), Entry(target, events[j].io.resolved))
      && (j < i ==> events[i].io.asked < events[j].io.resolved + FRESH_MILLIS)
  {
    ReachableInv(states, events, i);
    SentIsSafe(states[i], events[i]);
    var d, cache := UdpRequest(events[i].bytes).value, states[i].cache;
    var k := Key(d.address, d.port);
    if k in Kept(cache, events[i].io.asked) {
      j := EntriesWereResolved(states, events, i, k);
    } else {
      j := i;
    }
  }

  /**
   Over every run: a reply reaches only the one client, which stays the client to the end of the run, and comes
   only from a destination that an earlier datagram of the run was accepted for.
   */
  lemma RepliesStayInTheAssociation(states: seq<Relay>, events: seq<Event>, i: nat) returns (j: nat)
    requires IsRun(states, events) && i < |events|
    requires ValidEvent(events[i]) && Step(states[i], events[i]).effect.Replied?
    ensures var client := Step(states[i], events[i]).effect.client;
      client.ip == states[i].peer && forall n :: i <= n < |states| ==> states[n].client == Some(client)
    ensures j < i && TargetOf(states[j], events[j]) == Some(events[i].source)
  {
    ReachableInv(states, events, i);
    RepliedIsFromATarget(states[i], events[i]);
    forall n | i <= n < |states| ensures states[n].client == states[i].client { ClientStays(states, events, i, n); }
    j := TargetsWereNamed(states, events, i, events[i].source);
  }
}
