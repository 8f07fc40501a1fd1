/** What a reception must do, whatever the tunnel, the packet and the environment: when the source becomes trusted,
    when the packet is delivered, when it waits, and what is answered (relay.c, section 5.2.3 of RFC 4380). */
module Receiving {
  import opened Net
  import opened Packets
  import opened Peers
  import opened PeerCache
  import opened Relay
  import opened RelayRuns
  import opened Sending
  import Advert

  // ---- The circumstances ----

  /** A packet for a qualified client that is not the maintenance procedure's, from the client's own server. */
  predicate ViaServer(t: Tunnel, p: Packet)
    requires WellFormed(p.ip6)
  {
    && t.client && t.state.up && !Advert.IsMaintenance(p)
    && p.source == Endpoint(t.state.addr.server, TEREDO_PORT)
  }

  /** The answer to what arrives through the server: a bubble to the origin it indicates or, if it indicates none and is
      a bubble of a Teredo client, to the mapping of that client. */
  function Answers(t: Tunnel, p: Packet): seq<Out>
    requires WellFormed(p.ip6)
  {
    var src, bubble := Src(p.ip6), Bubble(Dst(p.ip6), Src(p.ip6));
    if !ViaServer(t, p) then []
    else if IsGlobalUnicast(p.orig.ip) then [Send(Control, p.orig, bubble)]
    else if && p.orig.ip == ZERO32 && IsBubble(p.ip6) && src.prefix == t.state.addr.prefix
            && IsGlobalUnicast(ClientMapping(src).ip)
    then [Send(Control, ClientMapping(src), bubble)]
    else []
  }

  /** A bubble through the server whose origin is indicated or guessed ends there, even if the origin is not global. */
  predicate EndsThere(t: Tunnel, p: Packet)
    requires WellFormed(p.ip6)
  {
    && ViaServer(t, p) && IsBubble(p.ip6)
    && (p.orig.ip != ZERO32
        || (Src(p.ip6).prefix == t.state.addr.prefix && ClientMapping(Src(p.ip6)).ip != ZERO32))
  }

  /** The packet gets as far as the peer list: clients must be qualified and take nothing from link-local sources,
      relays take packets of Teredo clients only. */
  predicate Considered(t: Tunnel, p: Packet) {
    && WellFormed(p.ip6)
    && if t.client then t.state.up && !Advert.IsMaintenance(p) && !EndsThere(t, p) && !IsLinkLocal(Src(p.ip6))
       else Src(p.ip6).prefix == t.state.addr.prefix
  }

  predicate Announces(t: Tunnel, p: Packet)
    requires WellFormed(p.ip6)
  {
    IsLocal(t, p) && IsDiscoveryBubble(p)
  }

  predicate Unicast(t: Tunnel, p: Packet) {
    Considered(t, p) && !Announces(t, p) && !IsMulticast(Dst(p.ip6))
  }

  /** The source is trusted at the very endpoint the packet comes from. */
  predicate TrustedAt(t: Tunnel, k: Addr, e: Endpoint) {
    k in t.list.peers && t.list.peers[k].trusted == Set(true) && t.list.peers[k].mapping == Set(e)
  }

  /** A listed source answers a client's connectivity test. */
  predicate Proven(env: Env, t: Tunnel, io: Io, p: Packet)
    requires WellFormed(p.ip6)
  {
    Src(p.ip6) in t.list.peers && t.client && CheckPing(env, io.wall, p.ip6)
  }

  /** A Teredo source is where its address says, or where it was found on the local network, or nearby and new, or it
      returns the nonce that was made for it. */
  predicate Plausible(env: Env, t: Tunnel, p: Packet)
    requires WellFormed(p.ip6)
  {
    var k := Src(p.ip6);
    || ClientMapping(k) == p.source
    || (k in t.list.peers && t.list.peers[k].local == Set(true) && t.list.peers[k].mapping == Set(p.source))
    || (k !in t.list.peers && IsLocal(t, p))
    || (IsBubble(p.ip6) && CheckBubble(env, p.ip6))
  }

  /** Relays do not list unknown sources. */
  predicate Listable(t: Tunnel, io: Io, k: Addr) {
    k in t.list.peers || (t.client && io.memory && t.list.left > 0)
  }

  predicate Vouched(env: Env, t: Tunnel, io: Io, p: Packet)
    requires WellFormed(p.ip6)
  {
    var k := Src(p.ip6);
    || TrustedAt(t, k, p.source)
    || Proven(env, t, io, p)
    || (k.prefix == t.state.addr.prefix && Plausible(env, t, p) && Listable(t, io, k))
  }

  /** Answers to tests go no further, and neither do bubbles unless the source is trusted already. */
  predicate Passes(env: Env, t: Tunnel, io: Io, p: Packet)
    requires WellFormed(p.ip6)
  {
    TrustedAt(t, Src(p.ip6), p.source) || (!Proven(env, t, io, p) && !IsBubble(p.ip6))
  }

  function QueueAt(t: Tunnel, k: Addr): seq<Item> {
    if k in t.list.peers then t.list.peers[k].queue else []
  }

  // ---- The two halves of a reception ----

  lemma Opening(env: Env, t: Tunnel, io: Io, p: Packet)
    requires AllReady(t) && t.clock <= io.now && Considered(t, p)
    ensures var r := ReceiveFrom(env, t, io, p);
            Receive(env, t, io, p) == r.(outs := Answers(t, p) + r.outs)
  {
    hide ReceiveFrom, AllReady, Bubble, IsGlobalUnicast, Advert.IsMaintenance;
    var r := ReceiveFrom(env, t, io, p);
    assert [] + r.outs == r.outs;
    ZeroIsNotGlobal();
  }

  lemma ZeroIsNotGlobal()
    ensures !IsGlobalUnicast(ZERO32)
  {
  }

  /** What is not considered changes nothing, but may be answered. */
  lemma IgnoredExact(env: Env, t: Tunnel, io: Io, p: Packet)
    requires AllReady(t) && t.clock <= io.now && !Considered(t, p)
    ensures Receive(env, t, io, p) == Result(t, if WellFormed(p.ip6) then Answers(t, p) else [], true)
  {
    hide ReceiveFrom, AllReady, Bubble, IsGlobalUnicast, Advert.IsMaintenance;
    ZeroIsNotGlobal();
  }

  /** What is considered and sent to a group is dropped, unless it announces a local peer. */
  lemma MulticastExact(env: Env, t: Tunnel, io: Io, p: Packet)
    requires AllReady(t) && t.clock <= io.now && Considered(t, p) && !Announces(t, p) && IsMulticast(Dst(p.ip6))
    ensures var r := Receive(env, t, io, p);
            r.outs == Answers(t, p) && r.tunnel.list.peers == t.list.peers
  {
    hide AllReady, Receive, Answers, ReceiveTeredo, ReceiveNative, ReceiveDiscovery, IsLocal, IsDiscoveryBubble, Touch,
      Predecap, Emit, CheckPing;
    Opening(env, t, io, p);
    TouchPeers(t.list, Src(p.ip6));
    assert Answers(t, p) + [] == Answers(t, p);
  }

  // ---- Trust and delivery ----

  /** The source is now trusted where the packet came from, its counters are reset and its queue is empty. */
  ghost predicate Welcomed(t: Tunnel, t': Tunnel, io: Io, p: Packet)
    requires WellFormed(p.ip6)
  {
    var k := Src(p.ip6);
    && TrustedAt(t', k, p.source)
    && var q := t'.list.peers[k];
    && q.lastRx == Set(io.now) && q.bubbles == Set(0) && q.pings == Set(0) && SlotOf(q) == EMPTY_SLOT
    && (if k in t.list.peers
        then q.local == t.list.peers[k].local && q.lastTx == t.list.peers[k].lastTx
        else q.local == Set(IsLocal(t, p)))
  }

  function ForStack(p: Packet): Bytes
    requires WellFormed(p.ip6)
  {
    p.ip6[..40 + PayloadLength(p.ip6)]
  }

  lemma FromKnown(env: Env, t: Tunnel, io: Io, p: Packet)
    requires AllReady(t) && t.clock <= io.now && Unicast(t, p)
    requires TrustedAt(t, Src(p.ip6), p.source) || Proven(env, t, io, p)
    ensures var r := ReceiveFrom(env, t, io, p);
            && Welcomed(t, r.tunnel, io, p)
            && r.outs == Emit(QueueAt(t, Src(p.ip6)), p.source)
                         + if TrustedAt(t, Src(p.ip6), p.source) then [Deliver(ForStack(p))] else []
  {
    hide AllReady, ReceiveTeredo, ReceiveNative, ReceiveDiscovery, IsLocal, IsDiscoveryBubble, Touch, Emit, CheckPing,
      EndsThere, Advert.IsMaintenance;
    TouchPeers(t.list, Src(p.ip6));
    assert Ready(ContextOf(t), Src(p.ip6), t.list.peers[Src(p.ip6)]) by { ReadyOf(t, Src(p.ip6)); }
    var out := Emit(QueueAt(t, Src(p.ip6)), p.source);
    assert out + [] == out;
  }

  lemma ReadyOf(t: Tunnel, k: Addr)
    requires AllReady(t) && k in t.list.peers
    ensures Ready(ContextOf(t), k, t.list.peers[k])
  {
  }

  /** Something vouches for a Teredo source exactly if it is plausible. */
  lemma JudgeExact(env: Env, t: Tunnel, io: Io, p: Packet)
    requires AllReady(t) && WellFormed(p.ip6)
    ensures var k := Src(p.ip6);
            && (k in t.list.peers ==> t.list.peers[k].local.Set? && t.list.peers[k].mapping.Set?)
            && (Judge(env, t, io, if k in t.list.peers then Some(t.list.peers[k]) else None, p).Trust?
                <==> Plausible(env, t, p))
  {
    hide AllReady, IsLocal, CheckBubble, Noted, IsBubble;
    if Src(p.ip6) in t.list.peers {
      ReadyOf(t, Src(p.ip6));
    }
  }

  lemma FromTeredo(env: Env, t: Tunnel, io: Io, p: Packet, list: Cache<Peer>)
    requires AllReady(t) && t.clock <= io.now && WellFormed(p.ip6)
    requires list.peers == t.list.peers && list.left == t.list.left
    ensures var k := Src(p.ip6);
            && (k in t.list.peers ==> t.list.peers[k].local.Set? && t.list.peers[k].mapping.Set?)
            && var r := ReceiveTeredo(env, t, io, p, list, k in t.list.peers);
            if Plausible(env, t, p) && Listable(t, io, k) then
              && Welcomed(t, r.tunnel, io, p)
              && r.outs == Emit(QueueAt(t, k), p.source) + if IsBubble(p.ip6) then [] else [Deliver(ForStack(p))]
            else r.outs == [] && r.tunnel.list.peers == t.list.peers
  {
    hide AllReady, IsLocal, Emit, CheckBubble, Noted, IsBubble, Touch, Judge, Ready, Plausible;
    JudgeExact(env, t, io, p);
    var k := Src(p.ip6);
    if k in t.list.peers {
      ReadyOf(t, k);
    }
  }

  lemma FromStranger(env: Env, t: Tunnel, io: Io, p: Packet) returns (list: Cache<Peer>)
    requires AllReady(t) && t.clock <= io.now && Unicast(t, p)
    requires !TrustedAt(t, Src(p.ip6), p.source) && !Proven(env, t, io, p)
    ensures list.peers == t.list.peers && list.left == t.list.left
    ensures var k := Src(p.ip6);
            if k.prefix == t.state.addr.prefix then
              && (k in t.list.peers ==> t.list.peers[k].local.Set? && t.list.peers[k].mapping.Set?)
              && ReceiveFrom(env, t, io, p) == ReceiveTeredo(env, t, io, p, list, k in t.list.peers)
            else
              && (k in t.list.peers ==> PingReady(t.list.peers[k], io.now))
              && ReceiveFrom(env, t, io, p) == ReceiveNative(env, t, io, p, list)
  {
    hide ReceiveTeredo, ReceiveNative, ReceiveDiscovery, IsLocal, IsDiscoveryBubble, Touch, Emit, CheckPing, AllReady,
      EndsThere, Advert.IsMaintenance;
    var k := Src(p.ip6);
    TouchPeers(t.list, k);
    if k in t.list.peers {
      ReadyOf(t, k);
    }
    list := Lookup(t.list, k, false, io.memory, BLANK).0;
  }

  /** After a unicast packet its source is trusted where the packet came from if and only if something vouches for it.
      Then the queue is flushed there, and the packet goes to the IPv6 stack, cut at the length it announces, unless it
      only answers a test or is a bubble.  A Teredo source that nothing vouches for changes nothing. */
  lemma TrustExact(env: Env, t: Tunnel, io: Io, p: Packet)
    requires AllReady(t) && t.clock <= io.now && Unicast(t, p)
    ensures var r := Receive(env, t, io, p);
            var k := Src(p.ip6);
            && (TrustedAt(r.tunnel, k, p.source) <==> Vouched(env, t, io, p))
            && (Vouched(env, t, io, p) ==>
                  && Welcomed(t, r.tunnel, io, p)
                  && r.outs == Answers(t, p) + (Emit(QueueAt(t, k), p.source)
                                                + if Passes(env, t, io, p) then [Deliver(ForStack(p))] else []))
            && (!Vouched(env, t, io, p) && k.prefix == t.state.addr.prefix ==>
                  r.outs == Answers(t, p) && r.tunnel.list.peers == t.list.peers)
  {
    hide AllReady, Receive, ReceiveFrom, ReceiveTeredo, ReceiveNative, Answers, Emit, Plausible, Proven, IsLocal, ForStack,
      EndsThere, Advert.IsMaintenance, Announces, Listable, IsMulticast;
    var k := Src(p.ip6);
    Opening(env, t, io, p);
    if TrustedAt(t, k, p.source) || Proven(env, t, io, p) {
      FromKnown(env, t, io, p);
    } else {
      var list := FromStranger(env, t, io, p);
      if k.prefix == t.state.addr.prefix {
        FromTeredo(env, t, io, p, list);
        assert Answers(t, p) + [] == Answers(t, p);
      } else {
        FromNative(env, t, io, p, list);
      }
    }
  }

  // ---- Connectivity tests of unknown nodes ----

  /** The packet was offered to the queue of its source, which was heard of but is no more trusted than before. */
  ghost predicate Kept(t: Tunnel, t': Tunnel, io: Io, p: Packet)
    requires WellFormed(p.ip6)
  {
    var k := Src(p.ip6);
    && k in t'.list.peers
    && var q := t'.list.peers[k];
    && var was := if k in t.list.peers then t.list.peers[k] else Begin(BLANK).(mapping := Set(NOWHERE));
    && SlotOf(q) == Offer(SlotOf(was), Item(ForStack(p), p.source, true)) && q.lastRx == Set(io.now)
    && q.trusted == was.trusted && q.local == was.local && q.mapping == was.mapping
  }

  lemma FromNative(env: Env, t: Tunnel, io: Io, p: Packet, list: Cache<Peer>)
    requires WellFormed(p.ip6) && list.peers == t.list.peers && list.left == t.list.left
    requires Src(p.ip6) in t.list.peers ==> PingReady(t.list.peers[Src(p.ip6)], io.now)
    ensures var k := Src(p.ip6);
            var r := ReceiveNative(env, t, io, p, list);
            && (!TrustedAt(t, k, p.source) && (k in t.list.peers ==> t.list.peers[k].trusted.Set?) ==>
                  !TrustedAt(r.tunnel, k, p.source))
            && if Fits(t, io, k) then
                 && Kept(t, r.tunnel, io, p)
                 && r.outs == (if PingDue(t, k, io.now) && io.first then
                                 [Send(Control, Endpoint(t.state.addr.server, TEREDO_PORT),
                                       Ping(env, io.wall, t.state.addr, k))]
                               else [])
               else r.outs == [] && r.tunnel.list.peers == t.list.peers
  {
    hide Ping, Enqueue, CountPing, Offer;
    var k := Src(p.ip6);
    var was := if k in t.list.peers then t.list.peers[k] else Begin(BLANK).(mapping := Set(NOWHERE));
    Tested(was, Item(ForStack(p), p.source, true), io.now);
  }

  /** Queueing a packet and counting a ping. */
  lemma Tested(p: Peer, i: Item, now: nat)
    requires PingReady(p, now)
    ensures var (grant, q) := CountPing(Enqueue(p, i).(lastRx := Set(now)), now);
            && (grant == Yes <==> p.pings == Set(0) || (p.pings.v < 4 && p.lastPing.v + 2 < now))
            && SlotOf(q) == Offer(SlotOf(p), i) && q.lastRx == Set(now)
            && q.trusted == p.trusted && q.local == p.local && q.mapping == p.mapping
  {
  }

  /** A packet of another node that nothing vouches for waits in the queue of its source, and a test is sent to the node
      if one is due and can be. */
  lemma NativeExact(env: Env, t: Tunnel, io: Io, p: Packet)
    requires AllReady(t) && t.clock <= io.now && Unicast(t, p)
    requires !Vouched(env, t, io, p) && Src(p.ip6).prefix != t.state.addr.prefix
    ensures var r := Receive(env, t, io, p);
            var k := Src(p.ip6);
            if Fits(t, io, k) then
              && Kept(t, r.tunnel, io, p)
              && r.outs == Answers(t, p) + (if PingDue(t, k, io.now) && io.first then
                                              [Send(Control, Endpoint(t.state.addr.server, TEREDO_PORT),
                                                    Ping(env, io.wall, t.state.addr, k))]
                                            else [])
            else r.outs == Answers(t, p) && r.tunnel.list.peers == t.list.peers
  {
    hide AllReady, Receive, ReceiveFrom, ReceiveTeredo, ReceiveNative, Answers, Emit, Plausible, Proven, IsLocal, Ping,
      EndsThere, Advert.IsMaintenance, Announces, Listable, IsMulticast, PingDue, Kept;
    Opening(env, t, io, p);
    var list := FromStranger(env, t, io, p);
    FromNative(env, t, io, p, list);
    assert Answers(t, p) + [] == Answers(t, p);
  }

  // ---- Local discovery ----

  /** A local peer that announces itself is listed where it announced itself from, trusted no more than before, and is
      sent a bubble if one is due, or if it was not known to be local. */
  lemma DiscoveryExact(env: Env, t: Tunnel, io: Io, p: Packet)
    requires AllReady(t) && t.clock <= io.now && Considered(t, p) && Announces(t, p)
    ensures var r := Receive(env, t, io, p);
            var k := Src(p.ip6);
            if Fits(t, io, k) then
              && k in r.tunnel.list.peers
              && var q, was := r.tunnel.list.peers[k], Found(t, k);
              && q.local == Set(true) && q.mapping == Set(p.source) && q.lastRx == Set(io.now)
              && q.trusted == was.trusted && SlotOf(q) == SlotOf(was)
              && var due := k !in t.list.peers || t.list.peers[k].local != Set(true) || BubbleDue(t, k, io.now);
              && (if due then q.lastTx == Set(io.now) else q.bubbles == was.bubbles && q.lastTx == was.lastTx)
              && r.outs == Answers(t, p) + if due then [Send(Control, p.source, Bubble(t.state.addr, k))] else []
            else r.outs == Answers(t, p) && r.tunnel.list.peers == t.list.peers
  {
    hide AllReady, Receive, ReceiveTeredo, ReceiveNative, ReceiveDiscovery, Answers, Emit, IsLocal, IsDiscoveryBubble,
      Touch, EndsThere, Advert.IsMaintenance, CheckPing, Predecap, Bubble, Found, BubbleDue;
    var k := Src(p.ip6);
    Opening(env, t, io, p);
    TouchPeers(t.list, k);
    if k in t.list.peers {
      ReadyOf(t, k);
    }
    var list := Lookup(t.list, k, false, io.memory, BLANK).0;
    assert Answers(t, p) + [] == Answers(t, p);
    Announced(t, io, p, list);
  }

  lemma Announced(t: Tunnel, io: Io, p: Packet, list: Cache<Peer>)
    requires WellFormed(p.ip6) && Announces(t, p) && list.peers == t.list.peers && list.left == t.list.left
    requires var k := Src(p.ip6);
             k in t.list.peers ==> t.list.peers[k].local.Set? && BubbleReady(t.list.peers[k], io.now)
    ensures var r := ReceiveDiscovery(t, io, p, list);
            var k := Src(p.ip6);
            if Fits(t, io, k) then
              && k in r.tunnel.list.peers
              && var q, was := r.tunnel.list.peers[k], Found(t, k);
              && q.local == Set(true) && q.mapping == Set(p.source) && q.lastRx == Set(io.now)
              && q.trusted == was.trusted && SlotOf(q) == SlotOf(was)
              && var due := k !in t.list.peers || t.list.peers[k].local != Set(true) || BubbleDue(t, k, io.now);
              && (if due then q.lastTx == Set(io.now) else q.bubbles == was.bubbles && q.lastTx == was.lastTx)
              && r.outs == if due then [Send(Control, p.source, Bubble(t.state.addr, k))] else []
            else r.outs == [] && r.tunnel.list.peers == t.list.peers
  {
    hide IsLocal, IsDiscoveryBubble, Bubble, CountBubble, ResetBubbles, BubbleDue, SlotOf, SiteOf;
    var k := Src(p.ip6);
    if Fits(t, io, k) {
      Greeted(t, k, io.now, BeforeGreeting(t, k), Noted(t, io, p));
    }
  }

  /** The entry of an announced peer before its address is noted. */
  function BeforeGreeting(t: Tunnel, k: Addr): Peer
    requires k in t.list.peers ==> t.list.peers[k].local.Set?
  {
    if k !in t.list.peers then ResetBubbles(BLANK.(trusted := Set(false), local := Set(false)))
    else if t.list.peers[k].local.v then t.list.peers[k]
    else ResetBubbles(t.list.peers[k])
  }

  /** Noting the address and counting a bubble. */
  lemma Greeted(t: Tunnel, k: Addr, now: nat, p: Peer, r: Reception)
    requires k in t.list.peers ==> t.list.peers[k].local.Set? && BubbleReady(t.list.peers[k], now)
    requires p == BeforeGreeting(t, k)
    ensures BubbleReady(p, now)
    ensures var p2 := p.(mapping := Set(r.packet.source), local := Set(true), lastRx := Set(now),
                         log := p.log.(voucher := Some(Voucher(ByDiscovery, r))));
            var (grant, q) := CountBubble(p2, now);
            var was := Found(t, k);
            && q.local == Set(true) && q.mapping == Set(r.packet.source) && q.lastRx == Set(now)
            && q.trusted == was.trusted && SlotOf(q) == SlotOf(was)
            && (grant == Yes <==> k !in t.list.peers || t.list.peers[k].local != Set(true) || BubbleDue(t, k, now))
            && (if grant == Yes then q.lastTx == Set(now) else q.bubbles == was.bubbles && q.lastTx == was.lastTx)
  {
  }
}
