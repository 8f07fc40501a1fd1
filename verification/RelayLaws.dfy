/** What holds of every peer, and of everything a tunnel emits, in every run. */
module RelayLaws {
  import opened Net
  import opened Packets
  import opened Peers
  import opened PeerCache
  import opened Relay

  /** The voucher's packet came from peer `k` and passed the named test in the circumstances of its arrival. */
  ghost predicate Vouches(env: Env, v: Voucher, k: Addr) {
    var p := v.at.packet;
    && WellFormed(p.ip6) && Src(p.ip6) == k
    && match v.proof
       case ByPing => v.at.client && CheckPing(env, v.at.wall, p.ip6)
       case ByMatch => MatchesClient(k, p.source)
       case ByNonce => IsBubble(p.ip6) && CheckBubble(env, p.ip6)
       case ByLocality => v.at.site.Some? && IsNeighbour(v.at.site.value, p)
       case ByDiscovery => v.at.site.Some? && IsNeighbour(v.at.site.value, p) && IsDiscoveryBubble(p)
  }

  /** A trusted or local peer's mapping is the UDP source of a packet received earlier that vouched for it. */
  ghost predicate Provenance(env: Env, seen: set<Reception>, k: Addr, p: Peer) {
    && p.trusted.Set? && p.local.Set? && p.mapping.Set?
    && (p.trusted.v || p.local.v ==>
          && p.log.voucher.Some? && Vouches(env, p.log.voucher.value, k)
          && p.log.voucher.value.at in seen
          && p.log.voucher.value.at.packet.source == p.mapping.v)
  }

  /** Queued packets belong to the peer they wait for. */
  ghost predicate Filed(k: Addr, q: seq<Item>) {
    forall i :: 0 <= i < |q| ==>
      |q[i].data| >= 40 && (if q[i].incoming then Src(q[i].data) == k else Dst(q[i].data) == k)
  }

  /** Rate limits, queue budget, queue order by peer, and trust. */
  ghost predicate Lawful(env: Env, seen: set<Reception>, clock: nat, k: Addr, p: Peer) {
    && BubbleLaw(p, clock) && PingLaw(p, clock) && QueueLaw(p)
    && Filed(k, p.queue)
    && Provenance(env, seen, k, p)
  }

  ghost predicate Good(env: Env, seen: set<Reception>, c: Context, k: Addr, p: Peer) {
    Ready(c, k, p) && Lawful(env, seen, c.clock, k, p)
  }

  ghost predicate Inv(env: Env, seen: set<Reception>, t: Tunnel) {
    forall k :: k in t.list.peers ==> Good(env, seen, ContextOf(t), k, t.list.peers[k])
  }

  lemma InvReady(env: Env, seen: set<Reception>, t: Tunnel)
    requires Inv(env, seen, t)
    ensures AllReady(t)
  {
    hide Ready, Lawful;
  }

  // ---- One peer ----

  lemma Later(env: Env, seen: set<Reception>, seen': set<Reception>, c: Context, k: Addr, p: Peer, now: nat)
    requires Good(env, seen, c, k, p) && c.clock <= now && seen <= seen'
    ensures Good(env, seen', c.(clock := now), k, p)
  {
    hide Spaced, Filed, Vouches, Total;
  }

  /** Case 1 of transmission only moves `lastTx`, which the bubble law allows. */
  lemma TouchGood(env: Env, seen: set<Reception>, c: Context, k: Addr, p: Peer)
    requires Good(env, seen, c, k, p)
    ensures Good(env, seen, c, k, p.(lastTx := Set(c.clock)))
  {
    hide Spaced, Filed, Vouches, Total;
  }

  lemma BeginGood(env: Env, seen: set<Reception>, c: Context, k: Addr, e: Endpoint)
    ensures Good(env, seen, c, k, Begin(BLANK).(mapping := Set(e)))
  {
  }

  lemma EnqueueGood(env: Env, seen: set<Reception>, c: Context, k: Addr, p: Peer, i: Item)
    requires Good(env, seen, c, k, p)
    requires |i.data| >= 40 && (if i.incoming then Src(i.data) == k else Dst(i.data) == k)
    ensures Good(env, seen, c, k, Enqueue(p, i))
  {
    hide Spaced, Vouches, Total;
  }

  lemma CountBubbleGood(env: Env, seen: set<Reception>, c: Context, k: Addr, p: Peer)
    requires Good(env, seen, c, k, p)
    ensures BubbleReady(p, c.clock) && Good(env, seen, c, k, CountBubble(p, c.clock).1)
  {
    hide Filed, Vouches, Total, Spaced;
    CountBubbleLaw(p, c.clock);
    hide BubbleLaw;
  }

  lemma CountPingGood(env: Env, seen: set<Reception>, c: Context, k: Addr, p: Peer)
    requires Good(env, seen, c, k, p) && p.pings.Set?
    ensures PingReady(p, c.clock) && Good(env, seen, c, k, CountPing(p, c.clock).1)
  {
    hide Filed, Vouches, Total, Spaced;
    CountPingLaw(p, c.clock);
  }

  /** Receiving from a peer whose mapping is vouched for. */
  lemma PredecapGood(env: Env, seen: set<Reception>, c: Context, k: Addr, p: Peer)
    requires p.trusted == Set(true) && p.local.Set? && (p.local.v ==> c.discovery)
    requires p.lastTx.Set? ==> p.lastTx.v <= c.clock
    requires p.lastPing.Set? ==> p.lastPing.v <= c.clock
    requires Provenance(env, seen, k, p)
    ensures Good(env, seen, c, k, Predecap(p, c.clock))
  {
    hide Vouches;
  }

  // ---- The whole list ----

  /** `list` is the tunnel's list but for the entry of `k`. */
  ghost predicate SameBut(t: Tunnel, list: Cache<Peer>, k: Addr) {
    forall j :: j in list.peers && j != k ==> j in t.list.peers && list.peers[j] == t.list.peers[j]
  }

  lemma PutInv(env: Env, seen: set<Reception>, seen': set<Reception>, t: Tunnel, list: Cache<Peer>, k: Addr, p: Peer,
               now: nat)
    requires Inv(env, seen, t) && seen <= seen' && t.clock <= now && SameBut(t, list, k)
    requires Good(env, seen', ContextOf(t).(clock := now), k, p)
    ensures Inv(env, seen', Put(t, list, k, p, now))
  {
    hide Good;
    var t' := Put(t, list, k, p, now);
    forall j | j in t'.list.peers && j != k ensures Good(env, seen', ContextOf(t'), j, t'.list.peers[j]) {
      Later(env, seen, seen', ContextOf(t), j, t.list.peers[j], now);
    }
  }

  lemma TickInv(env: Env, seen: set<Reception>, seen': set<Reception>, t: Tunnel, list: Cache<Peer>, now: nat)
    requires Inv(env, seen, t) && seen <= seen' && t.clock <= now
    requires forall j :: j in list.peers ==> j in t.list.peers && list.peers[j] == t.list.peers[j]
    ensures Inv(env, seen', t.(list := list, clock := now))
  {
    hide Good;
    var t' := t.(list := list, clock := now);
    forall j | j in t'.list.peers ensures Good(env, seen', ContextOf(t'), j, t'.list.peers[j]) {
      Later(env, seen, seen', ContextOf(t), j, t.list.peers[j], now);
    }
  }

  // ---- What leaves a tunnel ----

  /** Payload leaves only towards the mapping of the trusted peer it is for, and the IPv6 stack only gets packets
      whose source is a trusted peer. */
  ghost predicate OutOk(t: Tunnel, o: Out) {
    match o
    case Send(Payload, to, data) =>
      && |data| >= 40 && Dst(data) in t.list.peers
      && var p := t.list.peers[Dst(data)];
      p.trusted == Set(true) && p.mapping == Set(to)
    case Deliver(data) =>
      |data| >= 40 && Src(data) in t.list.peers && t.list.peers[Src(data)].trusted == Set(true)
    case _ => true
  }

  predicate IsControl(o: Out) {
    !o.Deliver? && (o.Send? ==> o.purpose == Control)
  }

  ghost predicate AllOk(t: Tunnel, outs: seq<Out>) {
    forall o :: o in outs ==> OutOk(t, o)
  }

  lemma ControlOk(t: Tunnel, outs: seq<Out>)
    requires forall o :: o in outs ==> IsControl(o)
    ensures AllOk(t, outs)
  {
  }

  lemma {:induction false} EmitOk(t: Tunnel, k: Addr, q: seq<Item>, mapping: Endpoint)
    requires Filed(k, q) && k in t.list.peers
    requires t.list.peers[k].trusted == Set(true) && t.list.peers[k].mapping == Set(mapping)
    ensures AllOk(t, Emit(q, mapping))
    decreases |q|
  {
    if q != [] {
      EmitOk(t, k, q[1..], mapping);
      assert forall o :: o in Emit(q, mapping) ==> o in Emission(q[0], mapping) || o in Emit(q[1..], mapping);
    }
  }

  // ---- Transmission ----

  lemma UnreachKeeps(env: Env, seen: set<Reception>, t: Tunnel, now: nat, code: byte, packet: Bytes)
    requires Inv(env, seen, t) && t.clock <= now
    ensures var r := Refuse(t, now, code, packet);
            Inv(env, seen, r.tunnel) && forall o :: o in r.outs ==> IsControl(o)
  {
    hide Good;
    TickInv(env, seen, seen, t, t.list, now);
    var r := Refuse(t, now, code, packet);
    assert ContextOf(r.tunnel) == ContextOf(t.(list := t.list, clock := now));
  }

  lemma PunchHoleControl(env: Env, s: State, dst: Addr, io: Io)
    ensures forall o :: o in PunchHole(env, s, dst, io).0 ==> IsControl(o)
  {
    hide BubbleSource, Bubble;
  }

  lemma MulticastControl(d: Discovery)
    ensures forall o :: o in Multicast(d) ==> IsControl(o)
  {
    hide Bubble;
  }

  /** The peer after an untrusted transmission, for each of the three cases. */
  lemma TxPeerGood(env: Env, seen: set<Reception>, c: Context, k: Addr, p: Peer, created: bool, data: Bytes, e: Endpoint)
    requires |data| >= 40 && Dst(data) == k
    requires if created then p == Begin(BLANK) else Good(env, seen, c, k, p)
    ensures var q := if created then p.(mapping := Set(e)) else p;
            && BubbleReady(q, c.clock) && Good(env, seen, c, k, TxBubble(q, data, c.clock).1)
            && (p.pings.Set? ==>
                  && PingReady(p, c.clock)
                  && (e == NOWHERE ==> Good(env, seen, c, k, TxProbe(p, created, data, c.clock).1)))
  {
    hide Good, Enqueue, CountBubble, CountPing, Begin;
    var q := if created then p.(mapping := Set(e)) else p;
    var i := Item(data, NOWHERE, false);
    if created {
      BeginGood(env, seen, c, k, e);
    }
    EnqueueGood(env, seen, c, k, q, i);
    CountBubbleGood(env, seen, c, k, Enqueue(q, i));
    if p.pings.Set? {
      CountPingGood(env, seen, c, k, Enqueue(q, i));
    }
  }

  /** What an untrusted transmission needs of the peer it found or created. */
  ghost predicate Found(env: Env, seen: set<Reception>, t: Tunnel, now: nat, k: Addr, p: Peer, created: bool) {
    if created then p == Begin(BLANK) else Good(env, seen, ContextOf(t).(clock := now), k, p)
  }

  lemma FoundReady(env: Env, seen: set<Reception>, t: Tunnel, now: nat, k: Addr, p: Peer, created: bool)
    requires Found(env, seen, t, now, k, p, created)
    ensures p.local.Set? && BubbleReady(p, now)
    ensures p.local.v ==> p.lastRx.Set? && p.lastRx.v <= now && p.mapping.Set? && t.discovery.Some?
    ensures t.client && t.state.up && k.prefix != t.state.addr.prefix ==> PingReady(p, now)
  {
    hide Lawful;
  }

  lemma TransmitUntrustedKeeps(env: Env, seen: set<Reception>, t: Tunnel, io: Io, packet: Bytes, list: Cache<Peer>,
                               p: Peer, created: bool)
    requires Inv(env, seen, t) && t.clock <= io.now && |packet| >= 40 && SameBut(t, list, Dst(packet))
    requires Found(env, seen, t, io.now, Dst(packet), p, created)
    requires Dst(packet).prefix != t.state.addr.prefix ==> t.client && t.state.up
    ensures Connectable(t, io.now, packet, p)
    ensures var r := TransmitUntrusted(env, t, io, packet, list, p, created);
            Inv(env, seen, r.tunnel) && forall o :: o in r.outs ==> IsControl(o)
  {
    hide Good, Inv, SameBut, TxBubble, TxProbe, Refuse, PunchHole, Multicast, Ping, Bubble, Begin;
    var k, c := Dst(packet), ContextOf(t).(clock := io.now);
    FoundReady(env, seen, t, io.now, k, p, created);
    if k.prefix != t.state.addr.prefix {
      TxPeerGood(env, seen, c, k, p, created, packet, NOWHERE);
      PutInv(env, seen, seen, t, list, k, TxProbe(p, created, packet, io.now).1, io.now);
      UnreachKeeps(env, seen, Put(t, list, k, TxProbe(p, created, packet, io.now).1, io.now), io.now, UNREACH_ADDR,
                   packet);
    } else {
      var q := if created then p.(mapping := Set(ClientMapping(k))) else p;
      TxPeerGood(env, seen, c, k, p, created, packet, ClientMapping(k));
      PutInv(env, seen, seen, t, list, k, TxBubble(q, packet, io.now).1, io.now);
      UnreachKeeps(env, seen, Put(t, list, k, TxBubble(q, packet, io.now).1, io.now), io.now, UNREACH_ADDR, packet);
      PunchHoleControl(env, t.state, k, io);
      if p.local.v {
        LocalNotCreated(env, seen, t, io.now, k, p, created);
        MulticastControl(t.discovery.value);
      }
    }
  }

  lemma LocalNotCreated(env: Env, seen: set<Reception>, t: Tunnel, now: nat, k: Addr, p: Peer, created: bool)
    requires Found(env, seen, t, now, k, p, created) && p.local == Set(true)
    ensures !created
  {
    hide Good;
  }

  lemma LookupSame(t: Tunnel, k: Addr, create: bool, memory: bool)
    ensures var (list, outcome) := Lookup(t.list, k, create, memory, BLANK);
            && SameBut(t, list, k)
            && (outcome == Hit <==> k in t.list.peers)
            && (outcome == Hit ==> list.peers == t.list.peers)
            && (outcome == Created ==> k !in t.list.peers && k in list.peers && list.peers[k] == BLANK)
            && (outcome == Missing ==> list == t.list)
  {
  }

  /** A transmission keeps every law; it sends payload only as the packet itself, to a trusted fresh peer. */
  lemma TransmitKeeps(env: Env, seen: set<Reception>, t: Tunnel, io: Io, packet: Bytes)
    requires Inv(env, seen, t) && t.clock <= io.now && |packet| >= 40
    ensures AllReady(t)
    ensures var r := Transmit(env, t, io, packet);
            && Inv(env, seen, r.tunnel) && AllOk(r.tunnel, r.outs)
            && (forall o :: o in r.outs && !IsControl(o) ==> o.Send? && o.data == packet)
  {
    hide Good, Inv, SameBut, TransmitUntrusted, Refuse, Lookup, Begin;
    InvReady(env, seen, t);
    var k, r := Dst(packet), Transmit(env, t, io, packet);
    UnreachKeeps(env, seen, t, io.now, UNREACH_ADDR, packet);
    UnreachKeeps(env, seen, t, io.now, UNREACH_ADMIN, packet);
    LookupSame(t, k, true, io.memory);
    var (list, outcome) := Lookup(t.list, k, true, io.memory, BLANK);
    if outcome == Hit {
      KnownGood(env, seen, t, k, io.now);
      TrustedKeeps(env, seen, t, list, k, io.now);
    }
    if outcome != Missing {
      var p := if outcome == Created then Begin(BLANK) else list.peers[k];
      if k.prefix == t.state.addr.prefix || (t.client && t.state.up) {
        TransmitUntrustedKeeps(env, seen, t, io, packet, list, p, outcome == Created);
        ControlOk(r.tunnel, TransmitUntrusted(env, t, io, packet, list, p, outcome == Created).outs);
      }
    }
  }

  lemma KnownGood(env: Env, seen: set<Reception>, t: Tunnel, k: Addr, now: nat)
    requires Inv(env, seen, t) && t.clock <= now && k in t.list.peers
    ensures Good(env, seen, ContextOf(t).(clock := now), k, t.list.peers[k])
  {
    hide Ready, Lawful;
    Later(env, seen, seen, ContextOf(t), k, t.list.peers[k], now);
  }

  lemma TrustedKeeps(env: Env, seen: set<Reception>, t: Tunnel, list: Cache<Peer>, k: Addr, now: nat)
    requires Inv(env, seen, t) && t.clock <= now && k in t.list.peers && SameBut(t, list, k)
    ensures Inv(env, seen, Put(t, list, k, t.list.peers[k].(lastTx := Set(now)), now))
  {
    hide Good, Inv, SameBut;
    KnownGood(env, seen, t, k, now);
    TouchGood(env, seen, ContextOf(t).(clock := now), k, t.list.peers[k]);
    PutInv(env, seen, seen, t, list, k, t.list.peers[k].(lastTx := Set(now)), now);
  }

  // ---- Reception ----

  /** A packet handed to the IPv6 stack came from the mapping the peer is now trusted at: it is the packet just
      received, or one queued earlier from that same source. */
  ghost predicate Delivered(t: Tunnel, p: Packet, o: Out)
    requires WellFormed(p.ip6)
  {
    o.Deliver? ==>
      || o.data == Inner(p)
      || (Src(p.ip6) in t.list.peers && Queued(t.list.peers[Src(p.ip6)].queue, p.source, o.data))
  }

  ghost predicate Queued(q: seq<Item>, from: Endpoint, data: Bytes) {
    exists i :: 0 <= i < |q| && q[i].incoming && q[i].from == from && q[i].data == data
  }

  lemma {:induction false} EmitDelivers(q: seq<Item>, mapping: Endpoint, o: Out)
    requires o in Emit(q, mapping)
    ensures o.Deliver? ==> Queued(q, mapping, o.data)
    ensures o.Deliver? || o.Send?
    decreases |q|
  {
    assert o in Emission(q[0], mapping) || o in Emit(q[1..], mapping);
    if o in Emit(q[1..], mapping) {
      EmitDelivers(q[1..], mapping, o);
      if o.Deliver? {
        var i :| 0 <= i < |q[1..]| && q[1..][i].incoming && q[1..][i].from == mapping && q[1..][i].data == o.data;
        assert q[i + 1].incoming;
      }
    } else {
      assert q[0].incoming || o.Send?;
    }
  }

  /** The peer of `k` becomes trusted at the packet's source: queue emitted, laws kept. */
  lemma AcceptKeeps(env: Env, seen: set<Reception>, t: Tunnel, io: Io, p: Packet, list: Cache<Peer>, q: Peer,
                    tail: seq<Out>)
    requires Inv(env, seen, t) && t.clock <= io.now && WellFormed(p.ip6) && SameBut(t, list, Src(p.ip6))
    requires var k, c := Src(p.ip6), ContextOf(t).(clock := io.now);
             && q.trusted == Set(true) && q.mapping == Set(p.source)
             && q.local.Set? && (q.local.v ==> t.discovery.Some?)
             && (q.lastTx.Set? ==> q.lastTx.v <= io.now) && (q.lastPing.Set? ==> q.lastPing.v <= io.now)
             && Provenance(env, seen + {Noted(t, io, p)}, k, q) && Filed(k, q.queue)
             && (q.queue != [] ==> k in t.list.peers && q.queue == t.list.peers[k].queue)
    requires tail == [] || tail == [Deliver(Inner(p))]
    ensures var t', outs := Put(t, list, Src(p.ip6), Predecap(q, io.now), io.now), Emit(q.queue, p.source) + tail;
            && Inv(env, seen + {Noted(t, io, p)}, t') && AllOk(t', outs)
            && forall o :: o in outs ==> Delivered(t, p, o)
  {
    hide Good, Inv, SameBut, Provenance, Filed;
    var k := Src(p.ip6);
    var q' := Predecap(q, io.now);
    PredecapGood(env, seen + {Noted(t, io, p)}, ContextOf(t).(clock := io.now), k, q);
    PutInv(env, seen, seen + {Noted(t, io, p)}, t, list, k, q', io.now);
    var t', outs := Put(t, list, k, q', io.now), Emit(q.queue, p.source) + tail;
    EmitOk(t', k, q.queue, p.source);
    forall o | o in outs ensures Delivered(t, p, o) && OutOk(t', o) {
      if o in Emit(q.queue, p.source) {
        EmitDelivers(q.queue, p.source, o);
      }
    }
  }

  lemma GoodParts(env: Env, seen: set<Reception>, c: Context, k: Addr, p: Peer)
    requires Good(env, seen, c, k, p)
    ensures p.trusted.Set? && p.local.Set? && p.mapping.Set? && Filed(k, p.queue)
    ensures p.local.v ==> c.discovery
    ensures p.lastTx.Set? ==> p.lastTx.v <= c.clock
    ensures p.lastPing.Set? ==> p.lastPing.v <= c.clock
    ensures Provenance(env, seen, k, p)
  {
  }

  lemma ProvenanceGrows(env: Env, seen: set<Reception>, seen': set<Reception>, k: Addr, p: Peer)
    requires Provenance(env, seen, k, p) && seen <= seen'
    ensures Provenance(env, seen', k, p)
  {
    hide Vouches;
  }

  /** What `Judge` trusts is vouched for. */
  lemma JudgeVouches(env: Env, seen: set<Reception>, t: Tunnel, io: Io, hit: Option<Peer>, p: Packet)
    requires WellFormed(p.ip6)
    requires hit.Some? ==> Provenance(env, seen, Src(p.ip6), hit.value)
    ensures hit.Some? ==> hit.value.local.Set? && hit.value.mapping.Set?
    ensures var v := Judge(env, t, io, hit, p);
            v.Trust? ==>
              && v.voucher.Some? && Vouches(env, v.voucher.value, Src(p.ip6))
              && v.voucher.value.at in seen + {Noted(t, io, p)} && v.voucher.value.at.packet.source == p.source
  {
    hide CheckBubble, CheckPing, SameUnder;
  }

  lemma TeredoKeeps(env: Env, seen: set<Reception>, t: Tunnel, io: Io, p: Packet, list0: Cache<Peer>, hit: bool)
    requires Inv(env, seen, t) && t.clock <= io.now && WellFormed(p.ip6)
    requires list0.peers == t.list.peers && (hit <==> Src(p.ip6) in t.list.peers)
    ensures hit ==> list0.peers[Src(p.ip6)].local.Set? && list0.peers[Src(p.ip6)].mapping.Set?
    ensures var r := ReceiveTeredo(env, t, io, p, list0, hit);
            && Inv(env, seen + {Noted(t, io, p)}, r.tunnel) && AllOk(r.tunnel, r.outs)
            && forall o :: o in r.outs ==> Delivered(t, p, o)
  {
    hide Good, Inv, SameBut, Vouches, Judge, Filed, Predecap, Emit, Delivered, AllOk, Inner;
    var k, c := Src(p.ip6), ContextOf(t).(clock := io.now);
    if hit {
      KnownGood(env, seen, t, k, io.now);
      GoodParts(env, seen, c, k, t.list.peers[k]);
    }
    var known := if hit then Some(list0.peers[k]) else None;
    JudgeVouches(env, seen, t, io, known, p);
    TickInv(env, seen, seen + {Noted(t, io, p)}, t, list0, io.now);
    NothingOk(t, t.(list := list0, clock := io.now), p);
    var verdict := Judge(env, t, io, known, p);
    if verdict.Trust? {
      var (list, outcome) := if hit then (list0, Hit) else Lookup(list0, k, true, io.memory, BLANK);
      var p0 := if hit then list0.peers[k] else BLANK.(local := Set(IsLocal(t, p)));
      var q := Accept(p0, p.source, verdict.voucher);
      SameButFrom(t, list0, k, io.memory);
      if !hit { FiledEmpty(k); }
      AcceptKeeps(env, seen, t, io, p, list, q, if IsBubble(p.ip6) then [] else [Deliver(Inner(p))]);
    }
  }

  lemma FiledEmpty(k: Addr)
    ensures Filed(k, [])
  {
  }

  lemma NothingOk(t: Tunnel, t': Tunnel, p: Packet)
    requires WellFormed(p.ip6)
    ensures AllOk(t', []) && forall o :: o in [] ==> Delivered(t, p, o)
  {
  }

  lemma SameButFrom(t: Tunnel, list0: Cache<Peer>, k: Addr, memory: bool)
    requires list0.peers == t.list.peers
    ensures SameBut(t, list0, k) && SameBut(t, Lookup(list0, k, true, memory, BLANK).0, k)
  {
  }

  /** Case 6 keeps the laws: the packet waits in the queue of its own source, and nothing is delivered. */
  lemma NativeKeeps(env: Env, seen: set<Reception>, t: Tunnel, io: Io, p: Packet, list0: Cache<Peer>)
    requires Inv(env, seen, t) && t.clock <= io.now && WellFormed(p.ip6)
    requires list0.peers == t.list.peers
    requires t.client && t.state.up && Src(p.ip6).prefix != t.state.addr.prefix
    ensures Src(p.ip6) in list0.peers ==> PingReady(list0.peers[Src(p.ip6)], io.now)
    ensures var r := ReceiveNative(env, t, io, p, list0);
            Inv(env, seen + {Noted(t, io, p)}, r.tunnel) && forall o :: o in r.outs ==> IsControl(o)
  {
    hide Good, Inv, SameBut, Enqueue, CountPing, Begin, Ping, Inner;
    var k, c := Src(p.ip6), ContextOf(t).(clock := io.now);
    TickInv(env, seen, seen + {Noted(t, io, p)}, t, list0, io.now);
    SameButFrom(t, list0, k, io.memory);
    var (list, outcome) := if k in list0.peers then (list0, Hit) else Lookup(list0, k, true, io.memory, BLANK);
    if k in list0.peers {
      KnownGood(env, seen, t, k, io.now);
      PingsSet(env, seen, c, k, t.list.peers[k]);
      Later(env, seen, seen + {Noted(t, io, p)}, c, k, t.list.peers[k], io.now);
    } else {
      BeginGood(env, seen + {Noted(t, io, p)}, c, k, NOWHERE);
      PingsSet(env, seen + {Noted(t, io, p)}, c, k, Begin(BLANK).(mapping := Set(NOWHERE)));
    }
    if outcome != Missing {
      var p0 := if outcome == Created then Begin(list.peers[k]).(mapping := Set(NOWHERE)) else list.peers[k];
      var i := Item(Inner(p), p.source, true);
      EnqueueGood(env, seen + {Noted(t, io, p)}, c, k, p0, i);
      TouchRxGood(env, seen + {Noted(t, io, p)}, c, k, Enqueue(p0, i));
      CountPingGood(env, seen + {Noted(t, io, p)}, c, k, Enqueue(p0, i).(lastRx := Set(io.now)));
      PutInv(env, seen, seen + {Noted(t, io, p)}, t, list, k,
             CountPing(Enqueue(p0, i).(lastRx := Set(io.now)), io.now).1, io.now);
    }
  }

  lemma PingsSet(env: Env, seen: set<Reception>, c: Context, k: Addr, p: Peer)
    requires Good(env, seen, c, k, p) && c.probing && k.prefix != c.prefix
    ensures p.pings.Set? && PingReady(p, c.clock)
  {
    hide Lawful;
  }

  lemma TouchRxGood(env: Env, seen: set<Reception>, c: Context, k: Addr, p: Peer)
    requires Good(env, seen, c, k, p)
    ensures Good(env, seen, c, k, p.(lastRx := Set(c.clock)))
  {
    hide Spaced, Filed, Vouches, Total;
  }

  /** The peer after a discovery bubble, before the reply is counted. */
  function Remapped(p0: Peer, t: Tunnel, io: Io, p: Packet): Peer
    requires p0.local.Set? && t.netmask.Some? && t.discovery.Some?
  {
    var p1 := if !p0.local.v then ResetBubbles(p0) else p0;
    p1.(mapping := Set(p.source), local := Set(true), lastRx := Set(io.now),
        log := p1.log.(voucher := Some(Voucher(ByDiscovery, Noted(t, io, p)))))
  }

  lemma DiscoveryVouches(env: Env, t: Tunnel, io: Io, p: Packet)
    requires WellFormed(p.ip6) && IsLocal(t, p) && IsDiscoveryBubble(p)
    ensures Vouches(env, Voucher(ByDiscovery, Noted(t, io, p)), Src(p.ip6))
    ensures Src(p.ip6).prefix == t.state.addr.prefix
  {
    hide SameUnder, IsDiscovered;
  }

  lemma BlankLaws(k: Addr, clock: nat)
    ensures QueueLaw(BLANK) && Filed(k, BLANK.queue) && PingLaw(BLANK, clock)
  {
  }

  lemma RemappedGood(env: Env, seen: set<Reception>, t: Tunnel, io: Io, p: Packet, p0: Peer, created: bool)
    requires WellFormed(p.ip6) && IsLocal(t, p) && IsDiscoveryBubble(p)
    requires var k, c := Src(p.ip6), ContextOf(t).(clock := io.now);
             if created then p0 == BLANK.(trusted := Set(false), local := Set(false)) else Good(env, seen, c, k, p0)
    ensures p0.local.Set?
    ensures Good(env, seen + {Noted(t, io, p)}, ContextOf(t).(clock := io.now), Src(p.ip6), Remapped(p0, t, io, p))
  {
    hide IsNeighbour, IsDiscoveryBubble, SiteOf, Good;
    var k, c := Src(p.ip6), ContextOf(t).(clock := io.now);
    DiscoveryVouches(env, t, io, p);
    BecomesLocal(c, k, p0, env, seen);
    var p1 := if !p0.local.v then ResetBubbles(p0) else p0;
    MovesTo(env, seen + {Noted(t, io, p)}, c, k, p1, Voucher(ByDiscovery, Noted(t, io, p)));
  }

  /** The laws that do not concern the mapping. */
  ghost predicate Regular(c: Context, k: Addr, p: Peer) {
    && BubbleLaw(p, c.clock) && PingLaw(p, c.clock) && QueueLaw(p) && Filed(k, p.queue) && p.trusted.Set?
  }

  lemma BecomesLocal(c: Context, k: Addr, p0: Peer, env: Env, seen: set<Reception>)
    requires p0 == BLANK.(trusted := Set(false), local := Set(false)) || Good(env, seen, c, k, p0)
    ensures p0.local.Set? && Regular(c, k, if !p0.local.v then ResetBubbles(p0) else p0)
  {
    hide Filed, Total, Vouches;
    BlankLaws(k, c.clock);
  }

  lemma MovesTo(env: Env, seen: set<Reception>, c: Context, k: Addr, p: Peer, v: Voucher)
    requires Regular(c, k, p) && c.discovery && k.prefix == c.prefix
    requires Vouches(env, v, k) && v.at in seen
    ensures Good(env, seen, c, k, p.(mapping := Set(v.at.packet.source), local := Set(true), lastRx := Set(c.clock),
                                    log := p.log.(voucher := Some(v))))
  {
    hide Filed, Total, Vouches, Spaced;
  }

  /** A local discovery bubble, which may re-map a peer, is itself the new mapping's voucher. */
  lemma DiscoveryKeeps(env: Env, seen: set<Reception>, t: Tunnel, io: Io, p: Packet, list0: Cache<Peer>)
    requires Inv(env, seen, t) && t.clock <= io.now && WellFormed(p.ip6) && IsLocal(t, p) && IsDiscoveryBubble(p)
    requires list0.peers == t.list.peers
    ensures Src(p.ip6) in list0.peers ==>
              list0.peers[Src(p.ip6)].local.Set? && BubbleReady(list0.peers[Src(p.ip6)], io.now)
    ensures var r := ReceiveDiscovery(t, io, p, list0);
            Inv(env, seen + {Noted(t, io, p)}, r.tunnel) && forall o :: o in r.outs ==> IsControl(o)
  {
    hide Good, Inv, SameBut, CountBubble, Bubble, IsNeighbour, ResetBubbles;
    var k, c := Src(p.ip6), ContextOf(t).(clock := io.now);
    TickInv(env, seen, seen + {Noted(t, io, p)}, t, list0, io.now);
    SameButFrom(t, list0, k, io.memory);
    if k in list0.peers {
      KnownGood(env, seen, t, k, io.now);
      FoundReady(env, seen, t, io.now, k, t.list.peers[k], false);
    }
    var (list, outcome) := if k in list0.peers then (list0, Hit) else Lookup(list0, k, true, io.memory, BLANK);
    if outcome != Missing {
      var p0 := if outcome == Created then list.peers[k].(trusted := Set(false), local := Set(false))
                else list.peers[k];
      RemappedGood(env, seen, t, io, p, p0, outcome == Created);
      var q := Remapped(p0, t, io, p);
      CountBubbleGood(env, seen + {Noted(t, io, p)}, c, k, q);
      PutInv(env, seen, seen + {Noted(t, io, p)}, t, list, k, CountBubble(q, io.now).1, io.now);
    }
  }

  /** Cases 1 and 2: the peer is known, and trusted at this source already or by its ping reply. */
  lemma KnownKeeps(env: Env, seen: set<Reception>, t: Tunnel, io: Io, p: Packet, list: Cache<Peer>)
    requires Inv(env, seen, t) && t.clock <= io.now && WellFormed(p.ip6)
    requires list.peers == t.list.peers && Src(p.ip6) in t.list.peers
    ensures var k, q := Src(p.ip6), t.list.peers[Src(p.ip6)];
            && q.trusted.Set? && q.mapping.Set?
            && (q.trusted.v && p.source == q.mapping.v ==>
                  var t', outs := Put(t, list, k, Predecap(q, io.now), io.now),
                                  Emit(q.queue, p.source) + [Deliver(Inner(p))];
                  Inv(env, seen + {Noted(t, io, p)}, t') && AllOk(t', outs) && forall o :: o in outs ==> Delivered(t, p, o))
            && (t.client && CheckPing(env, io.wall, p.ip6) ==>
                  var a := Accept(q, p.source, Some(Voucher(ByPing, Noted(t, io, p))));
                  var t', outs := Put(t, list, k, Predecap(a, io.now), io.now), Emit(a.queue, p.source);
                  Inv(env, seen + {Noted(t, io, p)}, t') && AllOk(t', outs) && forall o :: o in outs ==> Delivered(t, p, o))
  {
    hide Good, Inv, SameBut, Predecap, Emit, Delivered, AllOk, Filed, CheckPing, Inner;
    var k, c, q := Src(p.ip6), ContextOf(t).(clock := io.now), t.list.peers[Src(p.ip6)];
    KnownGood(env, seen, t, k, io.now);
    GoodParts(env, seen, c, k, q);
    ProvenanceGrows(env, seen, seen + {Noted(t, io, p)}, k, q);
    SameButFrom(t, list, k, io.memory);
    if q.trusted.v && p.source == q.mapping.v {
      AcceptKeeps(env, seen, t, io, p, list, q, [Deliver(Inner(p))]);
    }
    if t.client && CheckPing(env, io.wall, p.ip6) {
      var a := Accept(q, p.source, Some(Voucher(ByPing, Noted(t, io, p))));
      AcceptKeeps(env, seen, t, io, p, list, a, []);
      assert Emit(a.queue, p.source) + [] == Emit(a.queue, p.source);
    }
  }

  lemma ReceiveFromKeeps(env: Env, seen: set<Reception>, t: Tunnel, io: Io, p: Packet)
    requires Inv(env, seen, t) && t.clock <= io.now && WellFormed(p.ip6)
    requires if t.client then t.state.up else Src(p.ip6).prefix == t.state.addr.prefix
    ensures AllReady(t)
    ensures var r := ReceiveFrom(env, t, io, p);
            && Inv(env, seen + {Noted(t, io, p)}, r.tunnel) && AllOk(r.tunnel, r.outs)
            && forall o :: o in r.outs ==> Delivered(t, p, o)
  {
    hide Good, Inv, SameBut, ReceiveTeredo, ReceiveNative, ReceiveDiscovery, Predecap, Emit, CheckPing,
      Inner, Accept, Lookup, IsLocal, IsDiscoveryBubble;
    InvReady(env, seen, t);
    var k := Src(p.ip6);
    LookupSame(t, k, false, io.memory);
    NoCreate(t, k, io.memory);
    var (list, outcome) := Lookup(t.list, k, false, io.memory, BLANK);
    TickInv(env, seen, seen + {Noted(t, io, p)}, t, list, io.now);
    if outcome == Hit {
      KnownKeeps(env, seen, t, io, p, list);
    }
    if IsLocal(t, p) && IsDiscoveryBubble(p) {
      DiscoveryKeeps(env, seen, t, io, p, list);
      ControlOk(ReceiveDiscovery(t, io, p, list).tunnel, ReceiveDiscovery(t, io, p, list).outs);
    } else if k.prefix == t.state.addr.prefix {
      TeredoKeeps(env, seen, t, io, p, list, outcome == Hit);
    } else {
      NativeKeeps(env, seen, t, io, p, list);
      ControlOk(ReceiveNative(env, t, io, p, list).tunnel, ReceiveNative(env, t, io, p, list).outs);
    }
  }

  lemma NoCreate(t: Tunnel, k: Addr, memory: bool)
    ensures Lookup(t.list, k, false, memory, BLANK).0.peers == t.list.peers
    ensures Lookup(t.list, k, false, memory, BLANK).1 != Created
  {
  }

  /** A reception keeps every law; it delivers and sends only what the trusted mapping entitles it to. */
  lemma ReceiveKeeps(env: Env, seen: set<Reception>, t: Tunnel, io: Io, p: Packet)
    requires Inv(env, seen, t) && t.clock <= io.now
    ensures AllReady(t)
    ensures var r := Receive(env, t, io, p);
            && Inv(env, seen + {Noted(t, io, p)}, r.tunnel) && AllOk(r.tunnel, r.outs)
            && (WellFormed(p.ip6) ==> forall o :: o in r.outs ==> Delivered(t, p, o))
  {
    hide Good, Inv, ReceiveFrom, Inner, ReplyBubble, BubbleOrigin, AllOk, Delivered;
    InvReady(env, seen, t);
    TickInv(env, seen, seen + {Noted(t, io, p)}, t, t.list, t.clock);
    assert t.(list := t.list, clock := t.clock) == t;
    if WellFormed(p.ip6) {
      var reply := ReplyBubble(BubbleOrigin(t, p), p.ip6);
      NothingOk(t, t, p);
      PrefixOk(t, t, p, reply, []);
      assert reply + [] == reply;
      if if t.client then t.state.up else Src(p.ip6).prefix == t.state.addr.prefix {
        ReceiveFromKeeps(env, seen, t, io, p);
        var r := ReceiveFrom(env, t, io, p);
        PrefixOk(t, r.tunnel, p, reply, r.outs);
        PrefixOk(t, r.tunnel, p, [], r.outs);
        assert [] + r.outs == r.outs;
      }
    } else {
      NothingOk(t, t, Packet(Bubble(t.state.addr, t.state.addr), p.source, p.dest, p.orig, p.auth));
    }
  }

  /** A reply bubble before other output changes nothing about it. */
  lemma PrefixOk(t: Tunnel, t': Tunnel, p: Packet, reply: seq<Out>, outs: seq<Out>)
    requires WellFormed(p.ip6) && AllOk(t', outs) && (forall o :: o in outs ==> Delivered(t, p, o))
    requires reply == [] || reply == ReplyBubble(BubbleOrigin(t, p), p.ip6)
    ensures AllOk(t', reply + outs) && forall o :: o in reply + outs ==> Delivered(t, p, o)
  {
    hide Bubble, Inner;
    forall o | o in reply + outs ensures OutOk(t', o) && Delivered(t, p, o) {
      assert o in reply || o in outs;
    }
  }
}
