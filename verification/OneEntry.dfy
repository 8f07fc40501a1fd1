/** A packet step concerns the entry of one peer: the destination when sending, the source when receiving. */
module OneEntry {
  import opened Net
  import opened Packets
  import opened Peers
  import opened PeerCache
  import opened Relay

  /** A step that concerns peer `k` touches no other entry. */
  ghost predicate OnlyAt(t: Tunnel, t': Tunnel, k: Addr) {
    && t'.state == t.state && t'.client == t.client && t'.discovery == t.discovery && t'.netmask == t.netmask
    && (forall j :: j != k ==> (j in t.list.peers <==> j in t'.list.peers))
    && (forall j :: j in t.list.peers && j != k ==> t'.list.peers[j] == t.list.peers[j])
  }

  lemma UntrustedOnlyAt(env: Env, t: Tunnel, io: Io, data: Bytes, list: Cache<Peer>, p: Peer, created: bool)
    requires Connectable(t, io.now, data, p)
    requires forall j :: j in t.list.peers ==> j in list.peers && list.peers[j] == t.list.peers[j]
    requires forall j :: j in list.peers && j != Dst(data) ==> j in t.list.peers
    ensures OnlyAt(t, TransmitUntrusted(env, t, io, data, list, p, created).tunnel, Dst(data))
  {
    hide TxProbe, TxBubble, PunchHole, Multicast, Ping, Bubble, Limit;
  }

  lemma TxOnlyAt(env: Env, t: Tunnel, io: Io, data: Bytes)
    requires AllReady(t) && t.clock <= io.now && |data| >= 40
    ensures OnlyAt(t, Transmit(env, t, io, data).tunnel, Dst(data))
  {
    hide TransmitUntrusted, Limit, Touch;
    TouchPeers(t.list, Dst(data));
    var (list, outcome) := Lookup(t.list, Dst(data), true, io.memory, BLANK);
    if outcome != Missing {
      var p := if outcome == Created then Begin(BLANK) else list.peers[Dst(data)];
      if Connectable(t, io.now, data, p) {
        UntrustedOnlyAt(env, t, io, data, list, p, outcome == Created);
      }
    }
  }

  lemma TeredoOnlyAt(env: Env, t: Tunnel, io: Io, p: Packet, list0: Cache<Peer>, hit: bool)
    requires WellFormed(p.ip6) && (hit ==> Src(p.ip6) in list0.peers) && list0.peers == t.list.peers
    requires hit ==> list0.peers[Src(p.ip6)].local.Set? && list0.peers[Src(p.ip6)].mapping.Set?
    ensures OnlyAt(t, ReceiveTeredo(env, t, io, p, list0, hit).tunnel, Src(p.ip6))
  {
    hide Judge, Predecap, Accept, Emit, Inner, IsLocal;
  }

  lemma NativeOnlyAt(env: Env, t: Tunnel, io: Io, p: Packet, list0: Cache<Peer>)
    requires WellFormed(p.ip6) && list0.peers == t.list.peers
    requires Src(p.ip6) in list0.peers ==> PingReady(list0.peers[Src(p.ip6)], io.now)
    ensures OnlyAt(t, ReceiveNative(env, t, io, p, list0).tunnel, Src(p.ip6))
  {
    hide CountPing, Ping, Inner;
  }

  lemma DiscoveryOnlyAt(t: Tunnel, io: Io, p: Packet, list0: Cache<Peer>)
    requires WellFormed(p.ip6) && IsLocal(t, p) && list0.peers == t.list.peers
    requires Src(p.ip6) in list0.peers ==>
      list0.peers[Src(p.ip6)].local.Set? && BubbleReady(list0.peers[Src(p.ip6)], io.now)
    ensures OnlyAt(t, ReceiveDiscovery(t, io, p, list0).tunnel, Src(p.ip6))
  {
    hide CountBubble, Bubble, IsNeighbour;
  }

  lemma RxOnlyAt(env: Env, t: Tunnel, io: Io, p: Packet)
    requires AllReady(t) && t.clock <= io.now && WellFormed(p.ip6)
    requires if t.client then t.state.up else Src(p.ip6).prefix == t.state.addr.prefix
    ensures OnlyAt(t, ReceiveFrom(env, t, io, p).tunnel, Src(p.ip6))
  {
    hide ReceiveTeredo, ReceiveNative, ReceiveDiscovery, Predecap, Accept, Emit, Inner, CheckPing, IsDiscoveryBubble,
      IsNeighbour, Touch;
    var k := Src(p.ip6);
    TouchPeers(t.list, k);
    var (list, outcome) := Lookup(t.list, k, false, io.memory, BLANK);
    assert list.peers == t.list.peers;
    if IsLocal(t, p) && IsDiscoveryBubble(p) {
      DiscoveryOnlyAt(t, io, p, list);
    } else if k.prefix == t.state.addr.prefix {
      TeredoOnlyAt(env, t, io, p, list, outcome == Hit);
    } else {
      NativeOnlyAt(env, t, io, p, list);
    }
  }
}
