/** The client and relay packet steps (relay.c; sections 5.2.3, 5.2.4, 5.4.1 and 5.4.2 of RFC 4380).
    One step handles one packet; what it sends, delivers or reports is its output. */
module Relay {
  import opened Net
  import opened Packets
  import opened Peers
  import opened PeerCache
  import Advert

  datatype State = State(addr: Addr, ipv4: W32, mtu: nat, up: bool)

  datatype Discovery = Discovery(src: Addr, ifaces: seq<Iface>)

  datatype Tunnel = Tunnel(
    list: Cache<Peer>, client: bool, netmask: Option<W32>, discovery: Option<Discovery>,
    state: State, limiter: Limiter, clock: nat)

  /** What the environment decides during a step: the two clocks, whether memory is available, whether the
      first and second datagrams that are checked can be sent. */
  datatype Io = Io(now: nat, wall: nat, memory: bool, first: bool, second: bool)

  datatype Result = Result(tunnel: Tunnel, outs: seq<Out>, ok: bool)

  const MAX_PEERS: nat := 1024
  const UNREACH_ADMIN: byte := 1
  const UNREACH_ADDR: byte := 3

  // ---- Local clients ----

  function SameBits(a: byte, b: byte, m: byte): bool {
    (((a as bv8) ^ (b as bv8)) & (m as bv8)) == 0
  }

  predicate SameUnder(a: W32, b: W32, m: W32) {
    SameBits(a.b0, b.b0, m.b0) && SameBits(a.b1, b.b1, m.b1) && SameBits(a.b2, b.b2, m.b2) && SameBits(a.b3, b.b3, m.b3)
  }

  predicate IsDiscovered(ifaces: seq<Iface>, ip: W32) {
    exists i :: 0 <= i < |ifaces| && SameUnder(ip, ifaces[i].addr, ifaces[i].mask)
  }

  /** The two conditions of `teredo_islocal`: same external network, and a source on a local interface. */
  predicate IsNeighbour(site: Site, p: Packet)
    requires |p.ip6| >= 40
  {
    && Src(p.ip6).prefix == site.self.prefix
    && SameUnder(ClientMapping(Src(p.ip6)).ip, ClientMapping(site.self).ip, site.mask)
    && IsDiscovered(site.ifaces, p.source.ip)
  }

  function SiteOf(t: Tunnel): Site
    requires t.netmask.Some? && t.discovery.Some?
  {
    Site(t.state.addr, t.netmask.value, t.discovery.value.ifaces)
  }

  /** What a tunnel's history keeps of a packet that arrives. */
  function Noted(t: Tunnel, io: Io, p: Packet): Reception {
    Reception(p, io.wall, t.client, if t.netmask.Some? && t.discovery.Some? then Some(SiteOf(t)) else None)
  }

  predicate IsLocal(t: Tunnel, p: Packet)
    requires |p.ip6| >= 40
  {
    t.netmask.Some? && t.discovery.Some? && IsNeighbour(SiteOf(t), p)
  }

  predicate IsDiscoveryBubble(p: Packet)
    requires |p.ip6| >= 40
  {
    IsBubble(p.ip6) && p.dest == DISCOVERY_IPV4 && Dst(p.ip6) == ALL_NODES
  }

  /** `is_ipv4_discovered` */
  method ScanInterfaces(ifaces: seq<Iface>, ip: W32) returns (found: bool)
    ensures found == IsDiscovered(ifaces, ip)
  {
    for i := 0 to |ifaces|
      invariant forall j :: 0 <= j < i ==> !SameUnder(ip, ifaces[j].addr, ifaces[j].mask)
    {
      if SameUnder(ip, ifaces[i].addr, ifaces[i].mask) {
        return true;
      }
    }
    return false;
  }

  /** `SendDiscoveryBubble`: one multicast bubble on each interface. */
  function Multicast(d: Discovery): seq<Out> {
    seq(|d.ifaces|, _ => Send(Control, Endpoint(DISCOVERY_IPV4, TEREDO_PORT), Bubble(d.src, ALL_NODES)))
  }

  // ---- When a step is defined ----

  /** The tunnel facts that decide which fields of a peer may be read. */
  datatype Context = Context(probing: bool, prefix: W32, discovery: bool, clock: nat)

  function ContextOf(t: Tunnel): Context {
    Context(t.client && t.state.up, t.state.addr.prefix, t.discovery.Some?, t.clock)
  }

  /** Every field that some step may read is set, and no recorded time lies in the future.  A peer marked
      local exists only while a discovery object does. */
  ghost predicate Ready(c: Context, k: Addr, p: Peer) {
    && p.trusted.Set? && p.local.Set? && p.mapping.Set?
    && (p.trusted.v || p.local.v ==> p.lastRx.Set? && p.lastRx.v <= c.clock)
    && BubbleReady(p, c.clock)
    && (c.probing && k.prefix != c.prefix ==> PingReady(p, c.clock))
    && (p.local.v ==> c.discovery)
  }

  ghost predicate AllReady(t: Tunnel) {
    forall k :: k in t.list.peers ==> Ready(ContextOf(t), k, t.list.peers[k])
  }

  // ---- Transmission ----

  /** Bit fields of a peer that `teredo_transmit` has just created. */
  function Begin(p: Peer): Peer {
    ResetCounters(p.(trusted := Set(false), local := Set(false)))
  }

  /** Case 2: queue, and count a connectivity test. */
  function TxProbe(p: Peer, created: bool, data: Bytes, now: nat): (Grant, Peer)
    requires PingReady(p, now)
  {
    var q := if created then p.(mapping := Set(NOWHERE)) else p;
    CountPing(Enqueue(q, Item(data, NOWHERE, false)), now)
  }

  /** Cases 3 and 5: queue, and count a bubble. */
  function TxBubble(p: Peer, data: Bytes, now: nat): (Grant, Peer)
    requires BubbleReady(p, now)
  {
    CountBubble(Enqueue(p, Item(data, NOWHERE, false)), now)
  }

  function Put(t: Tunnel, list: Cache<Peer>, k: Addr, p: Peer, now: nat): Tunnel {
    t.(list := Update(list, k, p), clock := now)
  }

  /** `teredo_send_unreach` */
  function Unreach(t: Tunnel, now: nat, code: byte, packet: Bytes): (Tunnel, seq<Out>) {
    var (l, ok) := Limit(t.limiter, now);
    (t.(limiter := l, clock := now), if ok then [Unreachable(code, packet)] else [])
  }

  function Refuse(t: Tunnel, now: nat, code: byte, packet: Bytes): Result {
    var (t', outs) := Unreach(t, now, code, packet);
    Result(t', outs, true)
  }

  /** `SendBubbleFromDst`: not an error when the address is not global, nothing is sent then. */
  function BubbleTo(env: Env, e: Endpoint, dst: Addr, sent: bool): (seq<Out>, bool) {
    if !IsGlobalUnicast(e.ip) then ([], true)
    else if sent then ([Send(Control, e, Bubble(BubbleSource(env, dst), dst))], true)
    else ([], false)
  }

  /** Direct then indirect bubble, stopping at the first that cannot be sent. */
  function PunchHole(env: Env, s: State, dst: Addr, io: Io): (seq<Out>, bool) {
    var (direct, ok) := if IsCone(s.addr) then ([], true) else BubbleTo(env, ClientMapping(dst), dst, io.first);
    if !ok then (direct, false)
    else
      var (indirect, ok2) := BubbleTo(env, Endpoint(dst.server, TEREDO_PORT), dst, io.second);
      (direct + indirect, ok2)
  }

  function Transmit(env: Env, t: Tunnel, io: Io, packet: Bytes): Result
    requires AllReady(t) && t.clock <= io.now && |packet| >= 40
  {
    var dst, prefix := Dst(packet), t.state.addr.prefix;
    if IsMulticast(dst) then Result(t, [], true)
    else if t.client && !t.state.up then Refuse(t, io.now, UNREACH_ADDR, packet)
    else if dst.prefix != prefix && !t.client then Refuse(t, io.now, UNREACH_ADDR, packet)
    else if dst.prefix != prefix && Src(packet).prefix != prefix then Refuse(t, io.now, UNREACH_ADMIN, packet)
    else if dst.prefix == prefix && !IsGlobalUnicast(dst.server) then Result(t, [], true)
    else
      var (list, outcome) := Lookup(t.list, dst, true, io.memory, BLANK);
      if outcome == Missing then Result(t, [], false)
      else
        var p := list.peers[dst];
        if outcome == Hit && p.trusted.v && IsFresh(p, io.now) then
          Result(Put(t, list, dst, p.(lastTx := Set(io.now)), io.now),
                 if io.first then [Send(Payload, p.mapping.v, packet)] else [], io.first)
        else
          TransmitUntrusted(env, t, io, packet, list, if outcome == Created then Begin(p) else p, outcome == Created)
  }

  /** What connecting to an untrusted peer reads of it. */
  ghost predicate Connectable(t: Tunnel, now: nat, packet: Bytes, p: Peer) {
    && |packet| >= 40
    && p.local.Set? && BubbleReady(p, now)
    && (p.local.v ==> p.lastRx.Set? && p.lastRx.v <= now && p.mapping.Set? && t.discovery.Some?)
    && (Dst(packet).prefix != t.state.addr.prefix ==> PingReady(p, now))
  }

  function TransmitUntrusted(env: Env, t: Tunnel, io: Io, packet: Bytes, list: Cache<Peer>, p: Peer, created: bool):
      Result
    requires Connectable(t, io.now, packet, p)
  {
    var dst := Dst(packet);
    if dst.prefix != t.state.addr.prefix then
      // Client case 2: direct IPv6 connectivity test
      var (grant, q) := TxProbe(p, created, packet, io.now);
      var t' := Put(t, list, dst, q, io.now);
      if grant == Yes && io.first then
        Result(t', [Send(Control, Endpoint(t.state.addr.server, TEREDO_PORT), Ping(env, io.wall, t.state.addr, dst))],
               true)
      else if grant == Later then Result(t', [], true)
      else Refuse(t', io.now, UNREACH_ADDR, packet)
    else if p.local.v && IsFresh(p, io.now) then
      // Client case 3: untrusted local peer
      var (grant, q) := TxBubble(p, packet, io.now);
      var t' := Put(t, list, dst, q, io.now);
      if grant == Yes then
        Result(t', [Send(Control, p.mapping.v, Bubble(t.state.addr, dst))] + Multicast(t.discovery.value), true)
      else if grant == Later then Result(t', [], true)
      else Refuse(t', io.now, UNREACH_ADDR, packet)
    else
      // Client case 5 and relay case 3: untrusted Teredo client
      var (grant, q) := TxBubble(if created then p.(mapping := Set(ClientMapping(dst))) else p, packet, io.now);
      var t' := Put(t, list, dst, q, io.now);
      if grant == Yes then
        var (outs, ok) := PunchHole(env, t.state, dst, io);
        Result(t', outs, ok)
      else if grant == Later then Result(t', [], true)
      else Refuse(t', io.now, UNREACH_ADDR, packet)
  }

  // ---- Reception ----

  /** `teredo_predecap` on the peer: counters reset, queue yielded. */
  function Predecap(p: Peer, now: nat): Peer {
    Yield(ResetCounters(p.(lastRx := Set(now))))
  }

  function Accept(p: Peer, source: Endpoint, v: Option<Voucher>): Peer {
    p.(trusted := Set(true), mapping := Set(source), log := p.log.(voucher := v))
  }

  /** The packet as the IPv6 stack will get it. */
  function Inner(p: Packet): (d: Bytes)
    requires WellFormed(p.ip6)
    ensures |d| >= 40 && Src(d) == Src(p.ip6) && Dst(d) == Dst(p.ip6)
  {
    p.ip6[..40 + PayloadLength(p.ip6)]
  }

  /** Client handling of packets from its own server: an indirect bubble is answered towards its origin. */
  function BubbleOrigin(t: Tunnel, p: Packet): Endpoint
    requires |p.ip6| >= 40
  {
    if p.orig.ip == ZERO32 && IsBubble(p.ip6) && Src(p.ip6).prefix == t.state.addr.prefix
    then ClientMapping(Src(p.ip6))
    else p.orig
  }

  predicate FromServer(t: Tunnel, p: Packet) {
    p.source == Endpoint(t.state.addr.server, TEREDO_PORT)
  }

  function ReplyBubble(e: Endpoint, ip6: Bytes): seq<Out>
    requires |ip6| >= 40
  {
    if IsGlobalUnicast(e.ip) then [Send(Control, e, Bubble(Dst(ip6), Src(ip6)))] else []
  }

  function Receive(env: Env, t: Tunnel, io: Io, p: Packet): Result
    requires AllReady(t) && t.clock <= io.now
  {
    if !WellFormed(p.ip6) then Result(t, [], true)
    else if t.client then
      if Advert.IsMaintenance(p) || !t.state.up then Result(t, [], true)
      else
        var e := BubbleOrigin(t, p);
        var reply := FromServer(t, p) && e.ip != ZERO32;
        var outs := if reply then ReplyBubble(e, p.ip6) else [];
        if (reply && IsBubble(p.ip6)) || IsLinkLocal(Src(p.ip6)) then Result(t, outs, true)
        else
          var r := ReceiveFrom(env, t, io, p);
          r.(outs := outs + r.outs)
    else if Src(p.ip6).prefix != t.state.addr.prefix then Result(t, [], true)
    else ReceiveFrom(env, t, io, p)
  }

  /** What vouches for the source of a packet that claims a Teredo address, if anything does. */
  datatype Verdict = Refused | Trust(voucher: Option<Voucher>)

  function Judge(env: Env, t: Tunnel, io: Io, hit: Option<Peer>, p: Packet): Verdict
    requires WellFormed(p.ip6) && (hit.Some? ==> hit.value.local.Set? && hit.value.mapping.Set?)
  {
    if MatchesClient(Src(p.ip6), p.source) then Trust(Some(Voucher(ByMatch, Noted(t, io, p))))
    else if hit.Some? && hit.value.local.v && p.source == hit.value.mapping.v then Trust(hit.value.log.voucher)
    else if hit.None? && IsLocal(t, p) then Trust(Some(Voucher(ByLocality, Noted(t, io, p))))
    else if IsBubble(p.ip6) && CheckBubble(env, p.ip6) then Trust(Some(Voucher(ByNonce, Noted(t, io, p))))
    else Refused
  }

  function ReceiveFrom(env: Env, t: Tunnel, io: Io, p: Packet): Result
    requires AllReady(t) && t.clock <= io.now && WellFormed(p.ip6)
    requires if t.client then t.state.up else Src(p.ip6).prefix == t.state.addr.prefix
  {
    var k := Src(p.ip6);
    var (list, outcome) := Lookup(t.list, k, false, io.memory, BLANK);
    var t1 := t.(list := list, clock := io.now);
    if IsLocal(t, p) && IsDiscoveryBubble(p) then ReceiveDiscovery(t, io, p, list)
    else if IsMulticast(Dst(p.ip6)) then Result(t1, [], true)
    else if outcome == Hit && list.peers[k].trusted.v && p.source == list.peers[k].mapping.v then
      // Client case 1: trusted peer
      var q := list.peers[k];
      Result(Put(t, list, k, Predecap(q, io.now), io.now), Emit(q.queue, p.source) + [Deliver(Inner(p))], true)
    else if outcome == Hit && t.client && CheckPing(env, io.wall, p.ip6) then
      // Client case 2: reply to a connectivity test
      var q := Accept(list.peers[k], p.source, Some(Voucher(ByPing, Noted(t, io, p))));
      Result(Put(t, list, k, Predecap(q, io.now), io.now), Emit(q.queue, p.source), true)
    else if k.prefix == t.state.addr.prefix then
      ReceiveTeredo(env, t, io, p, list, outcome == Hit)
    else
      ReceiveNative(env, t, io, p, list)
  }

  /** Client case 4: a local discovery bubble. */
  function ReceiveDiscovery(t: Tunnel, io: Io, p: Packet, list0: Cache<Peer>): Result
    requires WellFormed(p.ip6) && IsLocal(t, p)
    requires Src(p.ip6) in list0.peers ==>
      list0.peers[Src(p.ip6)].local.Set? && BubbleReady(list0.peers[Src(p.ip6)], io.now)
  {
    var k := Src(p.ip6);
    var (list, outcome) := if k in list0.peers then (list0, Hit) else Lookup(list0, k, true, io.memory, BLANK);
    if outcome == Missing then Result(t.(list := list, clock := io.now), [], true)
    else
      var p0 := if outcome == Created then list.peers[k].(trusted := Set(false), local := Set(false))
                else list.peers[k];
      var p1 := if !p0.local.v then ResetBubbles(p0) else p0;
      var p2 := p1.(mapping := Set(p.source), local := Set(true), lastRx := Set(io.now),
                    log := p1.log.(voucher := Some(Voucher(ByDiscovery, Noted(t, io, p)))));
      var (grant, p3) := CountBubble(p2, io.now);
      Result(Put(t, list, k, p3, io.now),
             if grant == Yes then [Send(Control, p.source, Bubble(t.state.addr, k))] else [], true)
  }

  /** Client cases 3 and 5 and the extensions: a Teredo source, trusted if something vouches for it. */
  function ReceiveTeredo(env: Env, t: Tunnel, io: Io, p: Packet, list0: Cache<Peer>, hit: bool): Result
    requires WellFormed(p.ip6) && (hit ==> Src(p.ip6) in list0.peers)
    requires hit ==> list0.peers[Src(p.ip6)].local.Set? && list0.peers[Src(p.ip6)].mapping.Set?
  {
    var k := Src(p.ip6);
    var known := if hit then Some(list0.peers[k]) else None;
    var verdict := Judge(env, t, io, known, p);
    var t0 := t.(list := list0, clock := io.now);
    if verdict.Refused? || (!hit && !t.client) then Result(t0, [], true)
    else
      var (list, outcome) := if hit then (list0, Hit) else Lookup(list0, k, true, io.memory, BLANK);
      if outcome == Missing then Result(t0, [], true)
      else
        var p0 := if hit then list.peers[k] else BLANK.(local := Set(IsLocal(t, p)));
        var q := Accept(p0, p.source, verdict.voucher);
        Result(Put(t, list, k, Predecap(q, io.now), io.now),
               Emit(q.queue, p.source) + (if IsBubble(p.ip6) then [] else [Deliver(Inner(p))]), true)
  }

  /** Client case 6: an unknown or untrusted native IPv6 node is queued and tested. */
  function ReceiveNative(env: Env, t: Tunnel, io: Io, p: Packet, list0: Cache<Peer>): Result
    requires WellFormed(p.ip6)
    requires Src(p.ip6) in list0.peers ==> PingReady(list0.peers[Src(p.ip6)], io.now)
  {
    var k := Src(p.ip6);
    var (list, outcome) := if k in list0.peers then (list0, Hit) else Lookup(list0, k, true, io.memory, BLANK);
    if outcome == Missing then Result(t.(list := list, clock := io.now), [], true)
    else
      var p0 := if outcome == Created then Begin(list.peers[k]).(mapping := Set(NOWHERE)) else list.peers[k];
      var p1 := Enqueue(p0, Item(Inner(p), p.source, true)).(lastRx := Set(io.now));
      var (grant, p2) := CountPing(p1, io.now);
      Result(Put(t, list, k, p2, io.now),
             if grant == Yes && io.first
             then [Send(Control, Endpoint(t.state.addr.server, TEREDO_PORT), Ping(env, io.wall, t.state.addr, k))]
             else [], true)
  }

  // ---- Everything else that changes a tunnel ----

  /** `teredo_state_change`; `ifaces` is what starting local discovery yields, if it does start. */
  function StateChange(t: Tunnel, s: State, ifaces: Option<seq<Iface>>): (Tunnel, seq<Out>) {
    if s.up then
      var d := if t.netmask.Some? && ifaces.Some? then Some(Discovery(s.addr, ifaces.value)) else None;
      (t.(state := s, list := Empty(MAX_PEERS), discovery := d), [Up(s.addr, s.mtu)])
    else
      (t.(state := s), if t.state.up then [Down] else [])
  }

  function CollectGarbage(t: Tunnel): Tunnel {
    t.(list := Collect(t.list))
  }

  /** `teredo_set_prefix` and `teredo_set_cone_flag`: relays only. */
  function SetPrefix(host: ByteOrder, t: Tunnel, prefix: W32): Tunnel {
    if IsValidPrefix(host, prefix) && !t.client then t.(state := t.state.(addr := t.state.addr.(prefix := prefix))) else t
  }

  function SetCone(t: Tunnel, cone: bool): Tunnel {
    if t.client then t
    else
      var b := t.state.addr.flags.b0;
      var b' := if cone && b < 128 then b + 128 else if !cone && b >= 128 then b - 128 else b;
      t.(state := t.state.(addr := t.state.addr.(flags := W16(b', t.state.addr.flags.b1))))
  }

  /** `teredo_set_client_mode`: a new peer list, and a maintenance procedure if it can be started. */
  function SetClientMode(t: Tunnel, memory: bool, started: bool): Tunnel {
    if t.client || !memory then t else t.(list := Empty(MAX_PEERS), client := started)
  }

  function SetDiscovery(t: Tunnel, mask: Option<W32>): Tunnel {
    t.(netmask := mask)
  }

  /** `teredo_create` */
  function Create(e: Endpoint, now: nat): Tunnel {
    Tunnel(Empty(MAX_PEERS), false, None, None,
           State(WithClient(Addr(TEREDO_PREFIX, ZERO32, ZERO16, ZERO16, ZERO32), e), ZERO32, 0, false),
           Limiter(1, 0), now)
  }
}
