/** What a transmission must do, whatever the tunnel, the packet and the environment: when the packet is sent, when a
    bubble or a ping, when an error is reported, and when nothing happens (relay.c, section 5.4.1 of RFC 4380). */
module Sending {
  import opened Net
  import opened Packets
  import opened Peers
  import opened PeerCache
  import opened Relay
  import opened RelayRuns

  // ---- The circumstances ----

  /** The tests before the peer list: a client must be qualified; a client of the same Teredo service must name a
      global server; other destinations are for clients only, from their own Teredo prefix. */
  predicate Admitted(t: Tunnel, packet: Bytes)
    requires |packet| >= 40
  {
    var dst, prefix := Dst(packet), t.state.addr.prefix;
    && !IsMulticast(dst) && (t.client ==> t.state.up)
    && (if dst.prefix == prefix then IsGlobalUnicast(dst.server) else t.client && Src(packet).prefix == prefix)
  }

  /** Trusted, and heard of during the last 30 seconds, 600 if local. */
  predicate Current(t: Tunnel, k: Addr, now: nat) {
    && k in t.list.peers
    && var p := t.list.peers[k];
    && p.trusted == Set(true) && p.local.Set? && p.mapping.Set? && p.lastRx.Set?
    && now <= p.lastRx.v + (if p.local.v then 600 else 30)
  }

  /** Listed already, or there is memory and a free place. */
  predicate Fits(t: Tunnel, io: Io, k: Addr) {
    k in t.list.peers || (io.memory && t.list.left > 0)
  }

  /** The packet has to wait: admitted, and its peer can be listed but is not current. */
  predicate Waits(t: Tunnel, io: Io, packet: Bytes)
    requires |packet| >= 40
  {
    Admitted(t, packet) && Fits(t, io, Dst(packet)) && !Current(t, Dst(packet), io.now)
  }

  /** No ping since the counter was reset, or fewer than four and the last more than two seconds ago. */
  predicate PingDue(t: Tunnel, k: Addr, now: nat) {
    || k !in t.list.peers
    || var p := t.list.peers[k];
       || p.pings == Set(0)
       || (p.pings.Set? && p.lastPing.Set? && p.pings.v < 4 && p.lastPing.v + 2 < now)
  }

  /** No bubble since the counter was reset, or the peer last sent to more than two seconds ago, 300 after four. */
  predicate BubbleDue(t: Tunnel, k: Addr, now: nat) {
    || k !in t.list.peers
    || var p := t.list.peers[k];
       || p.bubbles == Set(0)
       || (p.bubbles.Set? && p.lastTx.Set? && p.lastTx.v + (if p.bubbles.v < 4 then 2 else 300) < now)
  }

  /** A peer on the local network, heard of during the last 600 seconds. */
  predicate Nearby(t: Tunnel, k: Addr, now: nat) {
    && k in t.list.peers
    && var p := t.list.peers[k];
    p.local == Set(true) && p.mapping.Set? && p.lastRx.Set? && now <= p.lastRx.v + 600
  }

  /** Attempts to reach the peer are exhausted, or the ping that is due cannot be sent. */
  predicate Hopeless(t: Tunnel, io: Io, k: Addr) {
    if k.prefix != t.state.addr.prefix then
      if PingDue(t, k, io.now) then !io.first
      else t.list.peers[k].pings.Set? && t.list.peers[k].pings.v >= 4
    else
      !BubbleDue(t, k, io.now) && t.list.peers[k].bubbles.Set? && t.list.peers[k].bubbles.v >= 4
  }

  /** An error with this code is called for: 1, prohibited, or 3, unreachable. */
  predicate ErrorDue(t: Tunnel, io: Io, packet: Bytes, code: byte)
    requires |packet| >= 40
  {
    var dst, prefix := Dst(packet), t.state.addr.prefix;
    && !IsMulticast(dst)
    && if t.client && !t.state.up then code == 3
       else if dst.prefix != prefix && !t.client then code == 3
       else if dst.prefix != prefix && Src(packet).prefix != prefix then code == 1
       else code == 3 && Waits(t, io, packet) && Hopeless(t, io, dst)
  }

  predicate Has(outs: seq<Out>, purpose: Purpose) {
    exists o :: o in outs && o.Send? && o.purpose == purpose
  }

  // ---- The bubbles ----

  function BubbleOut(env: Env, to: Endpoint, dst: Addr): Out {
    Send(Control, to, Bubble(BubbleSource(env, dst), dst))
  }

  /** A direct bubble opens the way back through our own NAT: unless we are behind a cone NAT, or the peer's mapping is
      not global. */
  predicate Direct(t: Tunnel, dst: Addr) {
    !IsCone(t.state.addr) && IsGlobalUnicast(ClientMapping(dst).ip)
  }

  /** The bubbles for a client that is not nearby: the direct one if any, and unless that one fails the one through
      the client's server. */
  function Bubbles(env: Env, t: Tunnel, io: Io, dst: Addr): seq<Out> {
    var direct, server := BubbleOut(env, ClientMapping(dst), dst), BubbleOut(env, Endpoint(dst.server, TEREDO_PORT), dst);
    if Direct(t, dst) && !io.first then []
    else if !Direct(t, dst) then (if io.second then [server] else [])
    else if io.second then [direct, server] else [direct]
  }

  lemma BubbleToExact(env: Env, e: Endpoint, dst: Addr, sent: bool)
    ensures BubbleTo(env, e, dst, sent)
         == (if IsGlobalUnicast(e.ip) && sent then [BubbleOut(env, e, dst)] else [], IsGlobalUnicast(e.ip) ==> sent)
  {
    hide Bubble, BubbleSource, IsGlobalUnicast;
  }

  lemma PunchHoleExact(env: Env, t: Tunnel, io: Io, dst: Addr)
    requires IsGlobalUnicast(dst.server)
    ensures PunchHole(env, t.state, dst, io) == (Bubbles(env, t, io, dst), (Direct(t, dst) ==> io.first) && io.second)
  {
    hide BubbleTo, BubbleOut, IsGlobalUnicast;
    var to, server := ClientMapping(dst), Endpoint(dst.server, TEREDO_PORT);
    BubbleToExact(env, to, dst, io.first);
    BubbleToExact(env, server, dst, io.second);
    var d, i := BubbleOut(env, to, dst), BubbleOut(env, server, dst);
    var none: seq<Out> := [];
    assert [d] + [i] == [d, i] && none + [i] == [i] && [d] + none == [d] && none + none == none;
  }

  // ---- Case by case ----

  /** What may be left of a waiting packet's step: an error, should there be room for one. */
  function Report(t: Tunnel, now: nat, code: byte, packet: Bytes): seq<Out> {
    if now != t.limiter.last || t.limiter.count > 0 then [Unreachable(code, packet)] else []
  }

  lemma RefuseExact(t: Tunnel, now: nat, code: byte, packet: Bytes)
    ensures var r := Refuse(t, now, code, packet);
            r.outs == Report(t, now, code, packet) && r.ok && r.tunnel.list == t.list
  {
  }

  /** The entry of a peer before anything is done with it. */
  function Found(t: Tunnel, k: Addr): Peer {
    if k in t.list.peers then t.list.peers[k] else Begin(BLANK)
  }

  lemma NativeWaits(env: Env, t: Tunnel, io: Io, packet: Bytes, list: Cache<Peer>, created: bool)
    requires |packet| >= 40 && created == (Dst(packet) !in t.list.peers)
    requires Connectable(t, io.now, packet, Found(t, Dst(packet))) && Dst(packet).prefix != t.state.addr.prefix
    ensures var k := Dst(packet);
            var r := TransmitUntrusted(env, t, io, packet, list, Found(t, k), created);
            && r.ok && k in r.tunnel.list.peers
            && Enlisted(Found(t, k), r.tunnel.list.peers[k], packet, if created then Set(NOWHERE) else Found(t, k).mapping)
            && r.outs == (if Hopeless(t, io, k) then Report(t, io.now, 3, packet)
                          else if PingDue(t, k, io.now) then
                            [Send(Control, Endpoint(t.state.addr.server, TEREDO_PORT),
                                  Ping(env, io.wall, t.state.addr, k))]
                          else [])
  {
    hide Ping, Limit, Offer;
    var k := Dst(packet);
    var (grant, q) := TxProbe(Found(t, k), created, packet, io.now);
    RefuseExact(Put(t, list, k, q, io.now), io.now, UNREACH_ADDR, packet);
    TxQueues(Found(t, k), created, packet, io.now);
    assert grant == Yes <==> PingDue(t, k, io.now);
    assert grant == Never <==> !PingDue(t, k, io.now) && Found(t, k).pings.v >= 4;
  }

  /** The packet was offered to the queue; nothing about whether and where the peer is trusted changed. */
  ghost predicate Enlisted(p: Peer, q: Peer, packet: Bytes, mapping: Field<Endpoint>) {
    && SlotOf(q) == Offer(SlotOf(p), Item(packet, NOWHERE, false))
    && q.trusted == p.trusted && q.local == p.local && q.lastRx == p.lastRx && q.mapping == mapping
    && q.log.voucher == p.log.voucher
  }

  /** The bubbles for a peer nearby: one to where it was heard of, and one multicast on each local interface. */
  predicate ToNearby(t: Tunnel, k: Addr, outs: seq<Out>)
    requires k in t.list.peers && t.list.peers[k].mapping.Set?
  {
    && t.discovery.Some? && |outs| == 1 + |t.discovery.value.ifaces|
    && outs[0] == Send(Control, t.list.peers[k].mapping.v, Bubble(t.state.addr, k))
    && forall i :: 1 <= i < |outs| ==>
         outs[i] == Send(Control, Endpoint(DISCOVERY_IPV4, TEREDO_PORT), Bubble(t.discovery.value.src, ALL_NODES))
  }

  /** Queueing a packet and counting a bubble. */
  lemma BubbleCounted(t: Tunnel, packet: Bytes, now: nat, p: Peer)
    requires |packet| >= 40 && BubbleReady(p, now) && p == Found(t, Dst(packet)).(mapping := p.mapping)
    ensures var (grant, q) := TxBubble(p, packet, now);
            && Enlisted(Found(t, Dst(packet)), q, packet, p.mapping)
            && (grant == Yes <==> BubbleDue(t, Dst(packet), now))
            && (grant == Never <==> !BubbleDue(t, Dst(packet), now) && p.bubbles.v >= 4)
    ensures Dst(packet) !in t.list.peers ==> BubbleDue(t, Dst(packet), now)
  {
    hide Offer;
    TxQueues(p, false, packet, now);
  }

  lemma NearbyWaits(env: Env, t: Tunnel, io: Io, packet: Bytes, list: Cache<Peer>)
    requires |packet| >= 40 && Nearby(t, Dst(packet), io.now)
    requires Connectable(t, io.now, packet, Found(t, Dst(packet))) && Dst(packet).prefix == t.state.addr.prefix
    ensures var k := Dst(packet);
            var r := TransmitUntrusted(env, t, io, packet, list, Found(t, k), false);
            && r.ok && k in r.tunnel.list.peers
            && Enlisted(Found(t, k), r.tunnel.list.peers[k], packet, Found(t, k).mapping)
            && (if Hopeless(t, io, k) then r.outs == Report(t, io.now, 3, packet)
                else if !BubbleDue(t, k, io.now) then r.outs == []
                else ToNearby(t, k, r.outs))
  {
    hide Bubble, Limit, PunchHole, TxBubble, Enlisted, BubbleDue, Refuse;
    var k := Dst(packet);
    var p := Found(t, k);
    RefuseExact(Put(t, list, k, TxBubble(p, packet, io.now).1, io.now), io.now, UNREACH_ADDR, packet);
    BubbleCounted(t, packet, io.now, p);
  }

  lemma FarWaits(env: Env, t: Tunnel, io: Io, packet: Bytes, list: Cache<Peer>, created: bool)
    requires |packet| >= 40 && created == (Dst(packet) !in t.list.peers) && IsGlobalUnicast(Dst(packet).server)
    requires Connectable(t, io.now, packet, Found(t, Dst(packet))) && Dst(packet).prefix == t.state.addr.prefix
    requires !Nearby(t, Dst(packet), io.now)
    ensures var k := Dst(packet);
            var r := TransmitUntrusted(env, t, io, packet, list, Found(t, k), created);
            && k in r.tunnel.list.peers
            && Enlisted(Found(t, k), r.tunnel.list.peers[k], packet,
                        if created then Set(ClientMapping(k)) else Found(t, k).mapping)
            && r.outs == (if Hopeless(t, io, k) then Report(t, io.now, 3, packet)
                          else if !BubbleDue(t, k, io.now) then []
                          else Bubbles(env, t, io, k))
            && (r.ok <==> (BubbleDue(t, k, io.now) ==> (Direct(t, k) ==> io.first) && io.second))
  {
    hide Bubble, Limit, Multicast, PunchHole, Bubbles, Direct, IsGlobalUnicast, TxBubble, Enlisted, BubbleDue, Refuse;
    var k := Dst(packet);
    var p := Found(t, k);
    PunchHoleExact(env, t, io, k);
    var p0 := if created then p.(mapping := Set(ClientMapping(k))) else p;
    RefuseExact(Put(t, list, k, TxBubble(p0, packet, io.now).1, io.now), io.now, UNREACH_ADDR, packet);
    BubbleCounted(t, packet, io.now, p0);
  }

  // ---- Every transmission ----

  /** A step of `Transmit` that has to connect first. */
  lemma WaitsFound(env: Env, t: Tunnel, io: Io, packet: Bytes) returns (list: Cache<Peer>)
    requires AllReady(t) && t.clock <= io.now && |packet| >= 40 && Waits(t, io, packet)
    ensures var k := Dst(packet);
            && Connectable(t, io.now, packet, Found(t, k))
            && Transmit(env, t, io, packet) == TransmitUntrusted(env, t, io, packet, list, Found(t, k), k !in t.list.peers)
  {
    hide TransmitUntrusted, Touch, IsGlobalUnicast;
    TouchPeers(t.list, Dst(packet));
    list := Lookup(t.list, Dst(packet), true, io.memory, BLANK).0;
  }

  /** A packet that is not admitted or whose peer cannot be listed: an error if the destination or the state calls for
      it, otherwise silence; no entry changes. */
  lemma Turned(env: Env, t: Tunnel, io: Io, packet: Bytes)
    requires AllReady(t) && t.clock <= io.now && |packet| >= 40
    requires !Waits(t, io, packet) && !(Admitted(t, packet) && Current(t, Dst(packet), io.now))
    ensures var r := Transmit(env, t, io, packet);
            && r.tunnel.list == t.list && r.ok == !Admitted(t, packet)
            && (ErrorDue(t, io, packet, 1) ==> r.outs == Report(t, io.now, 1, packet))
            && (ErrorDue(t, io, packet, 3) ==> r.outs == Report(t, io.now, 3, packet))
            && (!ErrorDue(t, io, packet, 1) && !ErrorDue(t, io, packet, 3) ==> r.outs == [])
  {
    hide TransmitUntrusted, Touch, IsGlobalUnicast, Limit;
    RefuseExact(t, io.now, UNREACH_ADDR, packet);
    RefuseExact(t, io.now, UNREACH_ADMIN, packet);
  }

  /** The packet itself is sent if and only if it is admitted, its peer current and the datagram can be sent: then it
      goes alone to where the peer answered from, and the entry notes the transmission. */
  lemma PayloadExact(env: Env, t: Tunnel, io: Io, packet: Bytes)
    requires AllReady(t) && t.clock <= io.now && |packet| >= 40
    ensures var r := Transmit(env, t, io, packet);
            var k := Dst(packet);
            && (Has(r.outs, Payload) <==> Admitted(t, packet) && Current(t, k, io.now) && io.first)
            && (Admitted(t, packet) && Current(t, k, io.now) ==>
                  && r.outs == (if io.first then [Send(Payload, t.list.peers[k].mapping.v, packet)] else [])
                  && r.ok == io.first && k in r.tunnel.list.peers
                  && r.tunnel.list.peers[k] == t.list.peers[k].(lastTx := Set(io.now)))
  {
    hide Admitted, AllReady, Transmit, TransmitUntrusted, Report, Enlisted, Hopeless, BubbleDue, PingDue, Nearby, ToNearby,
      Ping, Bubbles, Found, Connectable, ErrorDue;
    if Admitted(t, packet) && Current(t, Dst(packet), io.now) {
      CurrentSent(env, t, io, packet);
    } else {
      OthersWait(env, t, io, packet);
    }
  }

  lemma CurrentSent(env: Env, t: Tunnel, io: Io, packet: Bytes)
    requires AllReady(t) && t.clock <= io.now && |packet| >= 40
    requires Admitted(t, packet) && Current(t, Dst(packet), io.now)
    ensures var r := Transmit(env, t, io, packet);
            var k := Dst(packet);
            && r.outs == (if io.first then [Send(Payload, t.list.peers[k].mapping.v, packet)] else [])
            && r.ok == io.first && k in r.tunnel.list.peers
            && r.tunnel.list.peers[k] == t.list.peers[k].(lastTx := Set(io.now))
  {
    hide TransmitUntrusted, Touch, IsGlobalUnicast;
    TouchPeers(t.list, Dst(packet));
  }

  lemma OthersWait(env: Env, t: Tunnel, io: Io, packet: Bytes)
    requires AllReady(t) && t.clock <= io.now && |packet| >= 40
    requires !(Admitted(t, packet) && Current(t, Dst(packet), io.now))
    ensures !Has(Transmit(env, t, io, packet).outs, Payload)
  {
    hide AllReady, Transmit, TransmitUntrusted, Enlisted, Hopeless, BubbleDue, PingDue, Ping, Found, Connectable, ErrorDue,
      Bubble, Has, Waits, Report, ToNearby, Bubbles;
    ReportsHave(t, io.now, packet);
    if Waits(t, io, packet) {
      var list := WaitsFound(env, t, io, packet);
      var k := Dst(packet);
      if k.prefix != t.state.addr.prefix {
        NativeWaits(env, t, io, packet, list, k !in t.list.peers);
        SingleHas(Send(Control, Endpoint(t.state.addr.server, TEREDO_PORT), Ping(env, io.wall, t.state.addr, k)));
      } else if Nearby(t, k, io.now) {
        NearbyWaits(env, t, io, packet, list);
        NearbyHas(t, k, Transmit(env, t, io, packet).outs);
      } else {
        assert IsGlobalUnicast(k.server) by { WaitsServer(t, io, packet); }
        FarWaits(env, t, io, packet, list, k !in t.list.peers);
        BubblesHave(env, t, io, k);
      }
    } else {
      Turned(env, t, io, packet);
    }
  }

  /** A bubble or a ping leaves if and only if the packet has to wait, one is due and it can be sent; which datagrams
      then leave is fixed. */
  lemma ConnectExact(env: Env, t: Tunnel, io: Io, packet: Bytes)
    requires AllReady(t) && t.clock <= io.now && |packet| >= 40
    ensures var outs := Transmit(env, t, io, packet).outs;
            var k := Dst(packet);
            if k.prefix != t.state.addr.prefix then
              && (Has(outs, Control) <==> Waits(t, io, packet) && PingDue(t, k, io.now) && io.first)
              && (Has(outs, Control) ==>
                    outs == [Send(Control, Endpoint(t.state.addr.server, TEREDO_PORT),
                                  Ping(env, io.wall, t.state.addr, k))])
            else
              && (Has(outs, Control) <==>
                    && Waits(t, io, packet) && BubbleDue(t, k, io.now)
                    && (Nearby(t, k, io.now) || if Direct(t, k) then io.first else io.second))
              && (Has(outs, Control) ==>
                    if Nearby(t, k, io.now) then ToNearby(t, k, outs) else outs == Bubbles(env, t, io, k))
  {
    hide AllReady, Transmit, TransmitUntrusted, Enlisted, BubbleDue, PingDue, Ping, Found, Connectable, ErrorDue,
      Bubble, Has, Waits, Report, ToNearby, Bubbles, Direct;
    ReportsHave(t, io.now, packet);
    var k := Dst(packet);
    if Waits(t, io, packet) {
      var list := WaitsFound(env, t, io, packet);
      if k.prefix != t.state.addr.prefix {
        NativeWaits(env, t, io, packet, list, k !in t.list.peers);
        SingleHas(Send(Control, Endpoint(t.state.addr.server, TEREDO_PORT), Ping(env, io.wall, t.state.addr, k)));
      } else if Nearby(t, k, io.now) {
        NearbyWaits(env, t, io, packet, list);
        NearbyHas(t, k, Transmit(env, t, io, packet).outs);
      } else {
        assert IsGlobalUnicast(k.server) by { WaitsServer(t, io, packet); }
        FarWaits(env, t, io, packet, list, k !in t.list.peers);
        BubblesHave(env, t, io, k);
      }
    } else if Admitted(t, packet) && Current(t, k, io.now) {
      CurrentHas(env, t, io, packet);
    } else {
      Turned(env, t, io, packet);
    }
  }

  lemma CurrentHas(env: Env, t: Tunnel, io: Io, packet: Bytes)
    requires AllReady(t) && t.clock <= io.now && |packet| >= 40
    requires Admitted(t, packet) && Current(t, Dst(packet), io.now)
    ensures !Has(Transmit(env, t, io, packet).outs, Control) && !HasError(Transmit(env, t, io, packet).outs)
  {
    hide AllReady, Transmit, Admitted, Current;
    CurrentSent(env, t, io, packet);
  }

  /** A packet that has to wait is offered to its peer's queue, and one that has not is not; where the peer is trusted
      does not change.  A new peer is untrusted, at the mapping its address advertises or at none. */
  lemma WaitingExact(env: Env, t: Tunnel, io: Io, packet: Bytes)
    requires AllReady(t) && t.clock <= io.now && |packet| >= 40
    ensures var k := Dst(packet);
            var list := Transmit(env, t, io, packet).tunnel.list;
            && (k in list.peers <==> k in t.list.peers || (Admitted(t, packet) && Fits(t, io, k)))
            && (Waits(t, io, packet) ==>
                  Enlisted(Found(t, k), list.peers[k], packet,
                           if k in t.list.peers then t.list.peers[k].mapping
                           else Set(if k.prefix == t.state.addr.prefix then ClientMapping(k) else NOWHERE)))
            && (!Waits(t, io, packet) && k in t.list.peers ==>
                  list.peers[k] == t.list.peers[k].(lastTx := list.peers[k].lastTx))
  {
    hide AllReady, Transmit, TransmitUntrusted, Enlisted, BubbleDue, PingDue, Ping, Connectable, ErrorDue, Bubble, Report,
      ToNearby, Bubbles, Direct, Nearby, Hopeless, Found, Admitted, Current;
    var k := Dst(packet);
    if Waits(t, io, packet) {
      var list := WaitsFound(env, t, io, packet);
      if k.prefix != t.state.addr.prefix {
        NativeWaits(env, t, io, packet, list, k !in t.list.peers);
      } else if Nearby(t, k, io.now) {
        assert k in t.list.peers by { NearbyListed(t, k, io.now); }
        NearbyWaits(env, t, io, packet, list);
      } else {
        assert IsGlobalUnicast(k.server) by { WaitsServer(t, io, packet); }
        FarWaits(env, t, io, packet, list, k !in t.list.peers);
      }
      FoundListed(t, k);
    } else if Admitted(t, packet) && Current(t, k, io.now) {
      CurrentSent(env, t, io, packet);
      assert k in t.list.peers by { CurrentListed(t, k, io.now); }
    } else {
      Turned(env, t, io, packet);
    }
  }

  lemma NearbyListed(t: Tunnel, k: Addr, now: nat)
    requires Nearby(t, k, now)
    ensures k in t.list.peers
  {
  }

  lemma CurrentListed(t: Tunnel, k: Addr, now: nat)
    requires Current(t, k, now)
    ensures k in t.list.peers
  {
  }

  lemma FoundListed(t: Tunnel, k: Addr)
    ensures k in t.list.peers ==> Found(t, k) == t.list.peers[k]
  {
  }

  /** An error is reported if and only if one is called for and the limiter has any left; it quotes the packet and comes
      alone. */
  lemma ErrorExact(env: Env, t: Tunnel, io: Io, packet: Bytes, code: byte)
    requires AllReady(t) && t.clock <= io.now && |packet| >= 40
    ensures var outs := Transmit(env, t, io, packet).outs;
            && (Unreachable(code, packet) in outs <==>
                  ErrorDue(t, io, packet, code) && (io.now != t.limiter.last || t.limiter.count > 0))
            && (HasError(outs) ==> exists c :: ErrorDue(t, io, packet, c) && outs == [Unreachable(c, packet)])
  {
    hide AllReady, Transmit, TransmitUntrusted, Enlisted, BubbleDue, PingDue, Ping, Found, Connectable,
      Bubble, ToNearby, Bubbles, Direct, Nearby, Hopeless, HasError, Admitted, Waits, Current;
    var k, outs := Dst(packet), Transmit(env, t, io, packet).outs;
    if Waits(t, io, packet) {
      WaitsDue(t, io, packet, code);
      WaitsDue(t, io, packet, 3);
      WaitsReport(env, t, io, packet);
      ReportIs(t, io.now, 3, packet, outs);
      if !HasError(outs) {
        NotThere(outs, code, packet);
      }
    } else if Admitted(t, packet) && Current(t, k, io.now) {
      CurrentHas(env, t, io, packet);
      NotThere(outs, code, packet);
      CurrentFine(t, io, packet, code);
    } else {
      Turned(env, t, io, packet);
      ReportIs(t, io.now, 1, packet, outs);
      ReportIs(t, io.now, 3, packet, outs);
    }
  }

  lemma NotThere(outs: seq<Out>, code: byte, packet: Bytes)
    requires !HasError(outs)
    ensures Unreachable(code, packet) !in outs
  {
  }

  lemma ReportIs(t: Tunnel, now: nat, code: byte, packet: Bytes, outs: seq<Out>)
    ensures outs == Report(t, now, code, packet) ==>
      && (HasError(outs) <==> now != t.limiter.last || t.limiter.count > 0)
      && (HasError(outs) ==> outs == [Unreachable(code, packet)])
    ensures !HasError([])
  {
    if outs == [Unreachable(code, packet)] {
      assert outs[0] in outs;
    }
  }

  lemma CurrentFine(t: Tunnel, io: Io, packet: Bytes, code: byte)
    requires |packet| >= 40 && Admitted(t, packet) && Current(t, Dst(packet), io.now)
    ensures !ErrorDue(t, io, packet, code)
  {
  }

  lemma WaitsDue(t: Tunnel, io: Io, packet: Bytes, code: byte)
    requires |packet| >= 40 && Waits(t, io, packet)
    ensures ErrorDue(t, io, packet, code) <==> code == 3 && Hopeless(t, io, Dst(packet))
  {
    hide Hopeless;
  }

  lemma WaitsReport(env: Env, t: Tunnel, io: Io, packet: Bytes)
    requires AllReady(t) && t.clock <= io.now && |packet| >= 40 && Waits(t, io, packet)
    ensures var outs := Transmit(env, t, io, packet).outs;
            if Hopeless(t, io, Dst(packet)) then outs == Report(t, io.now, 3, packet) else !HasError(outs)
  {
    hide AllReady, Transmit, TransmitUntrusted, Enlisted, BubbleDue, PingDue, Ping, Found, Connectable,
      Bubble, Bubbles, Direct, Hopeless, Waits, Report, HasError, Nearby;
    var k := Dst(packet);
    var list := WaitsFound(env, t, io, packet);
    NoError([]);
    if k.prefix != t.state.addr.prefix {
      NativeWaits(env, t, io, packet, list, k !in t.list.peers);
      NoError([Send(Control, Endpoint(t.state.addr.server, TEREDO_PORT), Ping(env, io.wall, t.state.addr, k))]);
    } else if Nearby(t, k, io.now) {
      NearbyWaits(env, t, io, packet, list);
      assert k in t.list.peers && t.list.peers[k].mapping.Set? by { NearbyMapped(t, k, io.now); }
      if ToNearby(t, k, Transmit(env, t, io, packet).outs) {
        NoError(Transmit(env, t, io, packet).outs);
      }
    } else {
      assert IsGlobalUnicast(k.server) by { WaitsServer(t, io, packet); }
      FarWaits(env, t, io, packet, list, k !in t.list.peers);
      BubblesSend(env, t, io, k);
      NoError(Bubbles(env, t, io, k));
    }
  }

  lemma NearbyMapped(t: Tunnel, k: Addr, now: nat)
    requires Nearby(t, k, now)
    ensures k in t.list.peers && t.list.peers[k].mapping.Set?
  {
  }

  lemma NoError(outs: seq<Out>)
    requires forall i :: 0 <= i < |outs| ==> outs[i].Send?
    ensures !HasError(outs)
  {
  }

  lemma BubblesSend(env: Env, t: Tunnel, io: Io, k: Addr)
    ensures forall i :: 0 <= i < |Bubbles(env, t, io, k)| ==> Bubbles(env, t, io, k)[i].Send?
  {
    hide Bubble, BubbleSource, Direct;
  }

  /** What the caller is told: failure if and only if the peer cannot be listed, or the packet or a bubble through the
      Internet cannot be sent. */
  lemma ResultExact(env: Env, t: Tunnel, io: Io, packet: Bytes)
    requires AllReady(t) && t.clock <= io.now && |packet| >= 40
    ensures var k := Dst(packet);
            !Transmit(env, t, io, packet).ok <==>
            && Admitted(t, packet)
            && (|| !Fits(t, io, k)
                || (Current(t, k, io.now) && !io.first)
                || (&& !Current(t, k, io.now) && k.prefix == t.state.addr.prefix
                    && BubbleDue(t, k, io.now) && !Nearby(t, k, io.now)
                    && ((Direct(t, k) && !io.first) || !io.second)))
  {
    hide AllReady, Transmit, TransmitUntrusted, Enlisted, BubbleDue, PingDue, Ping, Found, Connectable, ErrorDue,
      Bubble, Report, Bubbles, Direct, Hopeless, Nearby, ToNearby, Admitted;
    var k := Dst(packet);
    if Waits(t, io, packet) {
      var list := WaitsFound(env, t, io, packet);
      if k.prefix != t.state.addr.prefix {
        NativeWaits(env, t, io, packet, list, k !in t.list.peers);
      } else if Nearby(t, k, io.now) {
        assert k in t.list.peers by { NearbyListed(t, k, io.now); }
        NearbyWaits(env, t, io, packet, list);
      } else {
        assert IsGlobalUnicast(k.server) by { WaitsServer(t, io, packet); }
        FarWaits(env, t, io, packet, list, k !in t.list.peers);
      }
    } else if Admitted(t, packet) && Current(t, k, io.now) {
      CurrentSent(env, t, io, packet);
    } else {
      Turned(env, t, io, packet);
    }
  }

  /** A transmission emits nothing else. */
  lemma NothingElse(env: Env, t: Tunnel, io: Io, packet: Bytes)
    requires AllReady(t) && t.clock <= io.now && |packet| >= 40
    ensures var outs := Transmit(env, t, io, packet).outs;
            outs != [] ==> Has(outs, Payload) || Has(outs, Control) || HasError(outs)
  {
    hide AllReady, Transmit, TransmitUntrusted, Enlisted, BubbleDue, PingDue, Ping, Found, Connectable, ErrorDue,
      Bubble, Has, Waits, ToNearby, Bubbles, Direct, HasError, Hopeless, Admitted;
    var k, outs := Dst(packet), Transmit(env, t, io, packet).outs;
    if outs != [] {
      First(outs);
      if Waits(t, io, packet) {
        WaitsSends(env, t, io, packet);
      } else if Admitted(t, packet) && Current(t, k, io.now) {
        CurrentSent(env, t, io, packet);
      } else {
        Turned(env, t, io, packet);
      }
    }
  }

  lemma First(outs: seq<Out>)
    requires outs != []
    ensures outs[0].Send? ==> Has(outs, Payload) || Has(outs, Control)
    ensures outs[0].Unreachable? ==> HasError(outs)
  {
    assert outs[0] in outs;
    assert outs[0].Send? ==> outs[0].purpose == Payload || outs[0].purpose == Control;
  }

  lemma WaitsSends(env: Env, t: Tunnel, io: Io, packet: Bytes)
    requires AllReady(t) && t.clock <= io.now && |packet| >= 40 && Waits(t, io, packet)
    ensures var outs := Transmit(env, t, io, packet).outs;
            outs != [] ==> outs[0].Send? || outs[0].Unreachable?
  {
    hide AllReady, Transmit, TransmitUntrusted, Enlisted, BubbleDue, PingDue, Ping, Found, Connectable,
      Bubble, Bubbles, Direct, Hopeless, Waits, Nearby;
    var k := Dst(packet);
    var list := WaitsFound(env, t, io, packet);
    if k.prefix != t.state.addr.prefix {
      NativeWaits(env, t, io, packet, list, k !in t.list.peers);
    } else if Nearby(t, k, io.now) {
      assert k in t.list.peers && t.list.peers[k].mapping.Set? by { NearbyMapped(t, k, io.now); }
      NearbyWaits(env, t, io, packet, list);
    } else {
      assert IsGlobalUnicast(k.server) by { WaitsServer(t, io, packet); }
      FarWaits(env, t, io, packet, list, k !in t.list.peers);
      BubblesSend(env, t, io, k);
    }
  }

  lemma WaitsServer(t: Tunnel, io: Io, packet: Bytes)
    requires |packet| >= 40 && Waits(t, io, packet) && Dst(packet).prefix == t.state.addr.prefix
    ensures IsGlobalUnicast(Dst(packet).server)
  {
  }

  lemma SingleHas(o: Out)
    requires o.Send? && o.purpose == Control
    ensures Has([o], Control) && !Has([o], Payload)
  {
    assert o in [o];
  }

  lemma NearbyHas(t: Tunnel, k: Addr, outs: seq<Out>)
    requires k in t.list.peers && t.list.peers[k].mapping.Set?
    ensures ToNearby(t, k, outs) ==> Has(outs, Control) && !Has(outs, Payload)
  {
    hide Bubble;
    if ToNearby(t, k, outs) {
      assert outs[0] in outs;
      assert forall i :: 0 <= i < |outs| ==> outs[i].Send? && outs[i].purpose == Control;
    }
  }

  lemma BubblesHave(env: Env, t: Tunnel, io: Io, k: Addr)
    ensures !Has(Bubbles(env, t, io, k), Payload)
    ensures Has(Bubbles(env, t, io, k), Control) <==> if Direct(t, k) then io.first else io.second
  {
    hide Bubble, BubbleSource, Direct;
    var b := Bubbles(env, t, io, k);
    if b != [] {
      assert b[0] in b;
    }
  }

  lemma ReportsHave(t: Tunnel, now: nat, packet: Bytes)
    ensures !Has([], Payload) && !Has([], Control)
    ensures forall code :: !Has(Report(t, now, code, packet), Payload) && !Has(Report(t, now, code, packet), Control)
  {
  }

  // ---- Errors over a run ----

  /** What is left at the limiter's clock reading is exactly what was not reported then; a tunnel starts with one. */
  ghost predicate ExactlyLeft(t: Tunnel, errors: seq<nat>) {
    && t.limiter.last <= t.clock
    && CountAt(errors, t.limiter.last) + t.limiter.count == (if t.limiter.last == 0 then 1 else 10)
    && (forall i :: 0 <= i < |errors| ==> errors[i] <= t.limiter.last)
  }

  lemma LimitExact(l: Limiter, errors: seq<nat>, now: nat)
    requires l.last <= now && CountAt(errors, l.last) + l.count == (if l.last == 0 then 1 else 10)
    requires forall i :: 0 <= i < |errors| ==> errors[i] <= l.last
    ensures var (m, ok) := Limit(l, now);
            var after := if ok then errors + [now] else errors;
            && (ok <==> CountAt(errors, now) < (if now == 0 then 1 else 10))
            && m.last == now && CountAt(after, now) + m.count == (if now == 0 then 1 else 10)
  {
    hide CountAt;
    if now != l.last {
      CountBeyond(errors, now);
    }
    CountSnoc(errors, now, now);
  }

  lemma StepLeaves(env: Env, t: Tunnel, e: RelayRuns.Event, errors: seq<nat>)
    requires AllReady(t) && Timely(t, e) && ExactlyLeft(t, errors)
    ensures var (t', outs) := RelayRuns.Step(env, t, e);
            ExactlyLeft(t', if e.Tx? && HasError(outs) then errors + [e.io.now] else errors)
  {
    hide AllReady, Transmit, Receive, HasError, CountAt, Limit;
    match e
    case Tx(io, data) =>
      TransmitConsults(env, t, io, data);
      LimitExact(t.limiter, errors, io.now);
    case Rx(io, p) =>
      ReceiveQuiet(env, t, io, p);
    case _ =>
  }

  lemma {:induction false} LeftInRun(env: Env, ts: seq<Tunnel>, es: seq<RelayRuns.Event>, os: seq<seq<Out>>, n: nat)
    requires IsRun(env, ts, es, os) && n <= |es|
    ensures ExactlyLeft(ts[n], ErrorTimes(es[..n], os[..n]))
    decreases n
  {
    hide AllReady, RelayRuns.Step, HasError, CountAt, ExactlyLeft;
    if n > 0 {
      var i := n - 1;
      LeftInRun(env, ts, es, os, i);
      EveryRun(env, ts, es, os, i);
      StepLeaves(env, ts[i], es[i], ErrorTimes(es[..i], os[..i]));
      assert RelayRuns.Step(env, ts[i], es[i]) == (ts[i + 1], os[i]);
      assert es[..n][..i] == es[..i] && os[..n][..i] == os[..i];
    } else {
      NothingYet(ts[0]);
    }
  }

  lemma NothingYet(t: Tunnel)
    requires exists e, now :: t == Create(e, now)
    ensures ExactlyLeft(t, [])
  {
  }

  /** In every run: an error that is called for is reported if and only if fewer than ten were reported at the same
      clock reading, fewer than one at reading zero. */
  lemma ErrorsExact(env: Env, ts: seq<Tunnel>, es: seq<RelayRuns.Event>, os: seq<seq<Out>>, n: nat, code: byte)
    requires IsRun(env, ts, es, os) && n < |es| && es[n].Tx?
    ensures Unreachable(code, es[n].data) in os[n] <==>
            && ErrorDue(ts[n], es[n].io, es[n].data, code)
            && CountAt(ErrorTimes(es[..n], os[..n]), es[n].io.now) < (if es[n].io.now == 0 then 1 else 10)
  {
    hide AllReady, Transmit, HasError, CountAt, ErrorDue, ErrorTimes;
    EveryRun(env, ts, es, os, n);
    LeftInRun(env, ts, es, os, n);
    ErrorExact(env, ts[n], es[n].io, es[n].data, code);
    LimitExact(ts[n].limiter, ErrorTimes(es[..n], os[..n]), es[n].io.now);
    assert RelayRuns.Step(env, ts[n], es[n]) == (ts[n + 1], os[n]);
    assert os[n] == Transmit(env, ts[n], es[n].io, es[n].data).outs;
  }
}
