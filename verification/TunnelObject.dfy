/** The tunnel as an object (relay.c): packet steps that look peers up in the linked list, change them under its
    lock and release it, proved equal to the steps of Relay. */
module TunnelObject {
  import opened Net
  import opened Packets
  import opened Peers
  import opened PeerCache
  import opened Relay
  import L = PeerList
  import Advert

  // ---- Counters, with the control flow of the source ----

  /** `CountPing` */
  method CountPings(p: Peer, now: nat) returns (res: Grant, q: Peer)
    requires PingReady(p, now)
    ensures (res, q) == CountPing(p, now)
  {
    q := p;
    if p.pings.v == 0 {
      res := Yes;
    } else if p.pings.v >= 4 {
      res := Never;
    } else if now - p.lastPing.v <= 2 {
      res := Later;
    } else {
      res := Yes;
    }
    if res == Yes {
      q := q.(lastPing := Set(now), pings := Set(q.pings.v + 1), log := q.log.(pings := q.log.pings + [now]));
    }
  }

  /** `CountBubble` */
  method CountBubbles(p: Peer, now: nat) returns (res: Grant, q: Peer)
    requires BubbleReady(p, now)
    ensures (res, q) == CountBubble(p, now)
  {
    q := p;
    if p.bubbles.v > 0 {
      if p.bubbles.v >= 4 {
        if now - p.lastTx.v <= 300 {
          res := Never;
        } else {
          q := q.(bubbles := Set(0));
          res := Yes;
        }
      } else if now - p.lastTx.v <= 2 {
        res := Later;
      } else {
        res := Yes;
      }
    } else {
      res := Yes;
    }
    if res == Yes {
      q := q.(lastTx := Set(now), bubbles := Set(q.bubbles.v + 1), log := q.log.(bubbles := q.log.bubbles + [now]));
    }
  }

  lemma MissKeeps(c: Cache<Peer>, k: Addr, create: bool, memory: bool)
    ensures Lookup(c, k, create, memory, BLANK).1 == Missing ==> Lookup(c, k, create, memory, BLANK).0 == c
  {
  }

  /** What follows a lookup does not depend on what the list was before it. */
  lemma UntrustedFromList(env: Env, t: Relay.Tunnel, io: Io, packet: Bytes, list: Cache<Peer>, p: Peer, created: bool)
    requires Connectable(t, io.now, packet, p)
    ensures TransmitUntrusted(env, t.(list := list), io, packet, list, p, created)
         == TransmitUntrusted(env, t, io, packet, list, p, created)
  {
    hide TxProbe, TxBubble, PunchHole, Multicast, Ping, Bubble, Limit;
  }

  /** What a Teredo source that `v` vouches for comes to, once its entry is `p0` of `list`. */
  function Accepted(t: Relay.Tunnel, io: Io, p: Packet, list: Cache<Peer>, p0: Peer, v: Option<Voucher>): Result
    requires WellFormed(p.ip6)
  {
    Result(Put(t, list, Src(p.ip6), Predecap(Accept(p0, p.source, v), io.now), io.now),
           Emit(p0.queue, p.source) + (if IsBubble(p.ip6) then [] else [Deliver(Inner(p))]), true)
  }

  lemma TeredoCases(env: Env, t: Relay.Tunnel, io: Io, p: Packet, list0: Cache<Peer>, hit: bool)
    requires WellFormed(p.ip6) && (hit ==> Src(p.ip6) in list0.peers)
    requires hit ==> list0.peers[Src(p.ip6)].local.Set? && list0.peers[Src(p.ip6)].mapping.Set?
    ensures var k := Src(p.ip6);
            var v := Judge(env, t, io, if hit then Some(list0.peers[k]) else None, p);
            var r := ReceiveTeredo(env, t, io, p, list0, hit);
            var (list, outcome) := Lookup(list0, k, true, io.memory, BLANK);
            && (v.Refused? || (!hit && (!t.client || outcome == Missing)) ==>
                  r == Result(t.(list := list0, clock := io.now), [], true))
            && (v.Trust? && hit ==> r == Accepted(t, io, p, list0, list0.peers[k], v.voucher))
            && (v.Trust? && !hit && t.client && outcome != Missing ==>
                  r == Accepted(t, io, p, list, BLANK.(local := Set(IsLocal(t, p))), v.voucher))
  {
    hide Judge, Predecap, Emit, Inner, IsLocal, Touch, Insert;
  }

  lemma AcceptedFromList(t: Relay.Tunnel, io: Io, p: Packet, list: Cache<Peer>, p0: Peer, v: Option<Voucher>)
    requires WellFormed(p.ip6)
    ensures Accepted(t.(list := list), io, p, list, p0, v) == Accepted(t, io, p, list, p0, v)
  {
  }

  lemma TeredoFromList(env: Env, t: Relay.Tunnel, io: Io, p: Packet, list: Cache<Peer>, hit: bool)
    requires WellFormed(p.ip6) && (hit ==> Src(p.ip6) in list.peers)
    requires hit ==> list.peers[Src(p.ip6)].local.Set? && list.peers[Src(p.ip6)].mapping.Set?
    ensures ReceiveTeredo(env, t.(list := list), io, p, list, hit) == ReceiveTeredo(env, t, io, p, list, hit)
  {
    hide Predecap, Emit, Inner, IsNeighbour, MatchesClient, CheckBubble, Lookup;
  }

  lemma NativeFromList(env: Env, t: Relay.Tunnel, io: Io, p: Packet, list: Cache<Peer>)
    requires WellFormed(p.ip6)
    requires Src(p.ip6) in list.peers ==> PingReady(list.peers[Src(p.ip6)], io.now)
    ensures ReceiveNative(env, t.(list := list), io, p, list) == ReceiveNative(env, t, io, p, list)
  {
    hide CountPing, Ping, Enqueue, Inner;
  }

  lemma DiscoveryFromList(t: Relay.Tunnel, io: Io, p: Packet, list: Cache<Peer>)
    requires WellFormed(p.ip6) && IsLocal(t, p)
    requires Src(p.ip6) in list.peers ==>
      list.peers[Src(p.ip6)].local.Set? && BubbleReady(list.peers[Src(p.ip6)], io.now)
    ensures IsLocal(t.(list := list), p)
    ensures ReceiveDiscovery(t.(list := list), io, p, list) == ReceiveDiscovery(t, io, p, list)
  {
    hide CountBubble, Bubble, IsNeighbour;
  }

  /** What a reception that is neither a discovery bubble nor multicast comes to, after the lookup. */
  function Unicast(env: Env, t: Relay.Tunnel, io: Io, p: Packet, list: Cache<Peer>, hit: bool): Result
    requires WellFormed(p.ip6) && (hit <==> Src(p.ip6) in list.peers)
    requires hit ==>
      var q := list.peers[Src(p.ip6)];
      && q.trusted.Set? && q.local.Set? && q.mapping.Set?
      && (Src(p.ip6).prefix != t.state.addr.prefix ==> PingReady(q, io.now))
  {
    var k := Src(p.ip6);
    if hit && list.peers[k].trusted.v && p.source == list.peers[k].mapping.v then
      Result(Put(t, list, k, Predecap(list.peers[k], io.now), io.now),
             Emit(list.peers[k].queue, p.source) + [Deliver(Inner(p))], true)
    else if hit && t.client && CheckPing(env, io.wall, p.ip6) then
      var q := Accept(list.peers[k], p.source, Some(Voucher(ByPing, Noted(t, io, p))));
      Result(Put(t, list, k, Predecap(q, io.now), io.now), Emit(q.queue, p.source), true)
    else if k.prefix == t.state.addr.prefix then ReceiveTeredo(env, t, io, p, list, hit)
    else ReceiveNative(env, t, io, p, list)
  }

  lemma UnicastFromList(env: Env, t: Relay.Tunnel, io: Io, p: Packet, list: Cache<Peer>, hit: bool)
    requires WellFormed(p.ip6) && (hit <==> Src(p.ip6) in list.peers)
    requires hit ==>
      var q := list.peers[Src(p.ip6)];
      && q.trusted.Set? && q.local.Set? && q.mapping.Set?
      && (Src(p.ip6).prefix != t.state.addr.prefix ==> PingReady(q, io.now))
    ensures Unicast(env, t.(list := list), io, p, list, hit) == Unicast(env, t, io, p, list, hit)
  {
    hide ReceiveTeredo, ReceiveNative, Predecap, Emit, Inner, CheckPing, PingReady;
    if Src(p.ip6).prefix == t.state.addr.prefix {
      TeredoFromList(env, t, io, p, list, hit);
    } else {
      NativeFromList(env, t, io, p, list);
    }
  }

  /** A lookup that creates nothing only reorders. */
  lemma FindOnly(c: Cache<Peer>, k: Addr, memory: bool)
    ensures var (c', outcome) := Lookup(c, k, false, memory, BLANK);
            c'.peers == c.peers && outcome == if k in c.peers then Hit else Missing
  {
    hide Without;
  }

  lemma FromCases(env: Env, t: Relay.Tunnel, io: Io, p: Packet)
    requires AllReady(t) && t.clock <= io.now && WellFormed(p.ip6)
    requires if t.client then t.state.up else Src(p.ip6).prefix == t.state.addr.prefix
    ensures var k := Src(p.ip6);
            var (list, outcome) := Lookup(t.list, k, false, io.memory, BLANK);
            var r := ReceiveFrom(env, t, io, p);
            && list.peers == t.list.peers
            && (k in list.peers ==>
                  var q := list.peers[k];
                  && q.trusted.Set? && q.local.Set? && q.mapping.Set? && BubbleReady(q, io.now)
                  && (k.prefix != t.state.addr.prefix ==> PingReady(q, io.now)))
            && if IsLocal(t, p) && IsDiscoveryBubble(p) then r == ReceiveDiscovery(t, io, p, list)
               else if IsMulticast(Dst(p.ip6)) then r == Result(t.(list := list, clock := io.now), [], true)
               else r == Unicast(env, t, io, p, list, k in list.peers)
  {
    hide ReceiveDiscovery, ReceiveTeredo, ReceiveNative, Predecap, Emit, Inner, CheckPing, IsNeighbour,
      IsDiscoveryBubble, Without;
    FindOnly(t.list, Src(p.ip6), io.memory);
  }

  class Tunnel {
    const env: Env
    const list: L.PeerList
    var client: bool
    var netmask: Option<W32>
    var discovery: Option<Discovery>
    var state: State
    var limiter: Limiter
    var clock: nat

    /** Between steps nobody holds the list. */
    ghost predicate Valid()
      reads this, list, list.young, list.elder
    {
      list.Valid() && !list.locked
    }

    /** The value this object stands for. */
    ghost function Value(): Relay.Tunnel
      reads this, list, list.young, list.elder
      requires list.Valid()
    {
      Relay.Tunnel(list.Model(), client, netmask, discovery, state, limiter, clock)
    }

    /** `teredo_create` */
    constructor (env: Env, e: Endpoint, now: nat)
      ensures Valid() && Value() == Create(e, now) && fresh(list)
    {
      this.env := env;
      list := new L.PeerList(MAX_PEERS);
      client, netmask, discovery := false, None, None;
      state := State(WithClient(Addr(TEREDO_PREFIX, ZERO32, ZERO16, ZERO16, ZERO32), e), ZERO32, 0, false);
      limiter := Limiter(1, 0);
      clock := now;
    }

    /** `teredo_send_unreach`.  Whatever was reported so far respects the limit at every clock reading, and goes on
        to do so. */
    method SendUnreach(now: nat, code: byte, packet: Bytes) returns (outs: seq<Out>)
      requires list.Valid()
      modifies this`limiter, this`clock
      ensures list.Valid() && (Value(), outs) == Unreach(old(Value()), now, code, packet)
      ensures forall sent: seq<nat>, at: nat :: Within(old(limiter), sent, at) && old(limiter.last) <= now ==>
                Within(limiter, if outs == [] then sent else sent + [now], at)
    {
      hide L.PeerList.Valid, L.PeerList.Model, Within;
      ghost var was := limiter;
      forall sent: seq<nat>, at: nat | Within(was, sent, at) && was.last <= now
        ensures var (l, ok) := Limit(was, now);
                Within(l, if ok then sent + [now] else sent, at)
      {
        LimitStep(was, sent, now, at);
      }
      clock := now;
      if now != limiter.last {
        limiter := Limiter(ERROR_RATE, now);
      }
      if limiter.count == 0 {
        return [];
      }
      limiter := limiter.(count := limiter.count - 1);
      return [Unreachable(code, packet)];
    }

    /** Writes to the entry and gives the list back. */
    method Commit(n: L.Node, p: Peer, now: nat)
      requires list.Valid() && list.locked && n in list.young
      modifies list`locked, n`peer, this`clock
      ensures Valid() && Value() == Put(old(Value()), old(list.Model()), n.key, p, now)
    {
      hide L.PeerList.Valid, L.PeerList.Model;
      list.Change(n, p);
      list.Release();
      clock := now;
    }

    // ---- Transmission ----

    /** Client case 2. */
    method ProbePeer(n: L.Node, p: Peer, created: bool, io: Io, packet: Bytes) returns (outs: seq<Out>, ok: bool)
      requires list.Valid() && list.locked && n in list.young && |packet| >= 40 && n.key == Dst(packet)
      requires Connectable(Value(), io.now, packet, p) && Dst(packet).prefix != state.addr.prefix
      modifies this`limiter, this`clock, list`locked, n`peer
      ensures Valid()
      ensures Result(Value(), outs, ok)
           == TransmitUntrusted(env, old(Value()), io, packet, old(list.Model()), p, created)
    {
      hide L.PeerList.Valid, L.PeerList.Model, Limit, CountPing, Ping, Enqueue;
      var q := if created then p.(mapping := Set(NOWHERE)) else p;
      q := Enqueue(q, Item(packet, NOWHERE, false));
      var res;
      res, q := CountPings(q, io.now);
      Commit(n, q, io.now);
      outs, ok := [], true;
      if res == Yes {
        if io.first {
          outs := [Send(Control, Endpoint(state.addr.server, TEREDO_PORT), Ping(env, io.wall, state.addr, Dst(packet)))];
        } else {
          res := Never;
        }
      }
      if res == Never {
        outs := SendUnreach(io.now, UNREACH_ADDR, packet);
      }
    }

    /** Client case 3. */
    method BubbleLocal(n: L.Node, p: Peer, created: bool, io: Io, packet: Bytes) returns (outs: seq<Out>, ok: bool)
      requires list.Valid() && list.locked && n in list.young && |packet| >= 40 && n.key == Dst(packet)
      requires Connectable(Value(), io.now, packet, p) && Dst(packet).prefix == state.addr.prefix
      requires p.local.v && IsFresh(p, io.now)
      modifies this`limiter, this`clock, list`locked, n`peer
      ensures Valid()
      ensures Result(Value(), outs, ok)
           == TransmitUntrusted(env, old(Value()), io, packet, old(list.Model()), p, created)
    {
      hide L.PeerList.Valid, L.PeerList.Model, Limit, CountBubble, Bubble, Enqueue, Multicast, IsFresh;
      var q := Enqueue(p, Item(packet, NOWHERE, false));
      var res;
      res, q := CountBubbles(q, io.now);
      Commit(n, q, io.now);
      outs, ok := [], true;
      if res == Yes {
        outs := [Send(Control, p.mapping.v, Bubble(state.addr, Dst(packet)))] + Multicast(discovery.value);
      }
      if res == Never {
        outs := SendUnreach(io.now, UNREACH_ADDR, packet);
      }
    }

    /** Client case 5 and relay case 3. */
    method BubbleClient(n: L.Node, p: Peer, created: bool, io: Io, packet: Bytes) returns (outs: seq<Out>, ok: bool)
      requires list.Valid() && list.locked && n in list.young && |packet| >= 40 && n.key == Dst(packet)
      requires Connectable(Value(), io.now, packet, p) && Dst(packet).prefix == state.addr.prefix
      requires !(p.local.v && IsFresh(p, io.now))
      modifies this`limiter, this`clock, list`locked, n`peer
      ensures Valid()
      ensures Result(Value(), outs, ok)
           == TransmitUntrusted(env, old(Value()), io, packet, old(list.Model()), p, created)
    {
      hide L.PeerList.Valid, L.PeerList.Model, Limit, CountBubble, BubbleTo, Enqueue, IsFresh;
      var dst := Dst(packet);
      var q := if created then p.(mapping := Set(ClientMapping(dst))) else p;
      q := Enqueue(q, Item(packet, NOWHERE, false));
      var res;
      res, q := CountBubbles(q, io.now);
      Commit(n, q, io.now);
      outs, ok := [], true;
      match res
      case Yes =>
        if !IsCone(state.addr) {
          var (direct, sent) := BubbleTo(env, ClientMapping(dst), dst, io.first);
          outs := direct;
          if !sent {
            return outs, false;
          }
        }
        var (indirect, sent) := BubbleTo(env, Endpoint(dst.server, TEREDO_PORT), dst, io.second);
        return outs + indirect, sent;
      case Never =>
        outs := SendUnreach(io.now, UNREACH_ADDR, packet);
      case Later =>
    }

    /** A peer that is unknown, untrusted or too old. */
    method Connect(n: L.Node, p: Peer, created: bool, io: Io, packet: Bytes) returns (outs: seq<Out>, ok: bool)
      requires list.Valid() && list.locked && n in list.young && |packet| >= 40 && n.key == Dst(packet)
      requires Connectable(Value(), io.now, packet, p)
      modifies this`limiter, this`clock, list`locked, n`peer
      ensures Valid()
      ensures Result(Value(), outs, ok)
           == TransmitUntrusted(env, old(Value()), io, packet, old(list.Model()), p, created)
    {
      hide L.PeerList.Valid, L.PeerList.Model, TransmitUntrusted;
      if Dst(packet).prefix != state.addr.prefix {
        outs, ok := ProbePeer(n, p, created, io, packet);
      } else if p.local.v && IsFresh(p, io.now) {
        outs, ok := BubbleLocal(n, p, created, io, packet);
      } else {
        outs, ok := BubbleClient(n, p, created, io, packet);
      }
    }

    /** The entry that a lookup returned can be read as the step needs. */
    lemma Usable(t: Relay.Tunnel, n: L.Node, created: bool, io: Io, packet: Bytes)
      requires list.Valid() && n in list.young && |packet| >= 40 && n.key == Dst(packet)
      requires AllReady(t) && t.clock <= io.now && Value() == t.(list := list.Model())
      requires (list.Model(), if created then Created else Hit) == Lookup(t.list, Dst(packet), true, io.memory, BLANK)
      requires Dst(packet).prefix != state.addr.prefix ==> client && state.up
      ensures n.key in list.Model().peers && list.Model().peers[n.key] == n.peer
      ensures !created ==> n.peer.trusted.Set? && n.peer.local.Set? && n.peer.mapping.Set?
      ensures !created && n.peer.trusted.v ==> n.peer.lastRx.Set? && n.peer.lastRx.v <= io.now
      ensures Connectable(t, io.now, packet, if created then Begin(n.peer) else n.peer)
      ensures Connectable(Value(), io.now, packet, if created then Begin(n.peer) else n.peer)
    {
      hide L.PeerList.Valid, L.PeerList.Model, Touch;
      list.PeerAt(n);
      TouchPeers(t.list, Dst(packet));
    }

    /** `teredo_transmit` */
    method TransmitPacket(io: Io, packet: Bytes) returns (outs: seq<Out>, ok: bool)
      requires Valid() && AllReady(Value()) && clock <= io.now && |packet| >= 40
      modifies this`limiter, this`clock, list, list.young, list.elder
      ensures Valid()
      ensures Result(Value(), outs, ok) == Transmit(env, old(Value()), io, packet)
    {
      hide L.PeerList.Valid, L.PeerList.Model, AllReady, TransmitUntrusted, Limit, Lookup, Connectable;
      var dst := Dst(packet);
      outs, ok := [], true;
      if IsMulticast(dst) {
        return;
      }
      if client && !state.up {
        outs := SendUnreach(io.now, UNREACH_ADDR, packet);
        return;
      }
      if dst.prefix != state.addr.prefix {
        if !client {
          outs := SendUnreach(io.now, UNREACH_ADDR, packet);
          return;
        }
        if Src(packet).prefix != state.addr.prefix {
          outs := SendUnreach(io.now, UNREACH_ADMIN, packet);
          return;
        }
      } else if !IsGlobalUnicast(dst.server) {
        return;
      }
      var n, created := list.Lookup(dst, true, io.memory, io.memory);
      if n == null {
        MissKeeps(old(list.Model()), dst, true, io.memory);
        return [], false;
      }
      Usable(old(Value()), n, created, io, packet);
      if !created && n.peer.trusted.v && IsFresh(n.peer, io.now) {
        var to := n.peer.mapping.v;
        Commit(n, n.peer.(lastTx := Set(io.now)), io.now);
        return if io.first then [Send(Payload, to, packet)] else [], io.first;
      }
      var p := if created then Begin(n.peer) else n.peer;
      UntrustedFromList(env, old(Value()), io, packet, list.Model(), p, created);
      outs, ok := Connect(n, p, created, io, packet);
    }

    // ---- Reception ----

    /** History: the circumstances of a packet's arrival. */
    function Note(io: Io, p: Packet): Reception
      reads this
    {
      Reception(p, io.wall, client,
                if netmask.Some? && discovery.Some? then Some(Site(state.addr, netmask.value, discovery.value.ifaces))
                else None)
    }

    /** `teredo_islocal` */
    method CheckLocal(p: Packet) returns (r: bool)
      requires list.Valid() && |p.ip6| >= 40
      ensures r == IsLocal(Value(), p)
    {
      hide L.PeerList.Valid, L.PeerList.Model, SameUnder, IsDiscovered;
      if netmask.None? || discovery.None? || Src(p.ip6).prefix != state.addr.prefix {
        return false;
      }
      if !SameUnder(ClientMapping(Src(p.ip6)).ip, ClientMapping(state.addr).ip, netmask.value) {
        return false;
      }
      r := ScanInterfaces(discovery.value.ifaces, p.source.ip);
    }

    /** An entry, if the lookup of a packet's source found one, with the list held exactly then. */
    ghost predicate Found(n: L.Node?, k: Addr)
      reads this, list, list.young, list.elder, n
      requires list.Valid()
    {
      && (list.locked <==> n != null)
      && (n != null ==> n in list.young && n.key == k)
      && (n == null ==> k !in list.Model().peers)
    }

    /** Client case 4. */
    method TakeDiscovery(n0: L.Node?, io: Io, p: Packet) returns (outs: seq<Out>)
      requires list.Valid() && WellFormed(p.ip6) && Found(n0, Src(p.ip6)) && IsLocal(Value(), p)
      requires n0 != null ==> n0.peer.local.Set? && BubbleReady(n0.peer, io.now)
      requires Src(p.ip6) in list.Model().peers ==>
        var q := list.Model().peers[Src(p.ip6)];
        q.local.Set? && BubbleReady(q, io.now)
      modifies this`clock, list, list.young, list.elder
      ensures Valid()
      ensures Result(Value(), outs, true) == ReceiveDiscovery(old(Value()), io, p, old(list.Model()))
    {
      hide L.PeerList.Valid, L.PeerList.Model, CountBubble, Bubble, IsNeighbour, Touch, Insert;
      var k, n := Src(p.ip6), n0;
      var created := false;
      if n0 != null {
        list.PeerAt(n0);
      } else {
        n, created := list.Lookup(k, true, io.memory, io.memory);
        if n == null {
          clock := io.now;
          return [];
        }
        list.PeerAt(n);
      }
      var q := n.peer;
      if n0 == null {
        q := q.(trusted := Set(false), local := Set(false));
      }
      if !q.local.v {
        q := ResetBubbles(q);
      }
      q := q.(mapping := Set(p.source), local := Set(true), lastRx := Set(io.now),
              log := q.log.(voucher := Some(Voucher(ByDiscovery, Note(io, p)))));
      var res;
      res, q := CountBubbles(q, io.now);
      Commit(n, q, io.now);
      outs := if res == Yes then [Send(Control, p.source, Bubble(state.addr, k))] else [];
    }

    /** `teredo_predecap`, for an entry whose fields were set to `q` before. */
    method Predecapsulate(n: L.Node, q: Peer, to: Endpoint, now: nat) returns (outs: seq<Out>)
      requires list.Valid() && list.locked && n in list.young
      modifies list`locked, n`peer, this`clock
      ensures Valid() && Value() == Put(old(Value()), old(list.Model()), n.key, Predecap(q, now), now)
      ensures outs == Emit(q.queue, to)
    {
      hide L.PeerList.Valid, L.PeerList.Model, Emit;
      Commit(n, Predecap(q, now), now);
      outs := QueueEmit(q.queue, to);
    }

    /** Whether anything vouches for a source that is a Teredo address, tried in the order of the source. */
    method JudgeSource(io: Io, known: Option<Peer>, islocal: bool, p: Packet) returns (v: Verdict)
      requires list.Valid() && WellFormed(p.ip6) && islocal == IsLocal(Value(), p)
      requires known.Some? ==> known.value.local.Set? && known.value.mapping.Set?
      ensures v == Judge(env, Value(), io, known, p)
    {
      hide L.PeerList.Valid, L.PeerList.Model, IsNeighbour, MatchesClient, CheckBubble;
      if MatchesClient(Src(p.ip6), p.source) {
        return Trust(Some(Voucher(ByMatch, Note(io, p))));
      }
      if known.Some? && known.value.local.v && p.source == known.value.mapping.v {
        return Trust(known.value.log.voucher);
      }
      if known.None? && islocal {
        return Trust(Some(Voucher(ByLocality, Note(io, p))));
      }
      if IsBubble(p.ip6) && CheckBubble(env, p.ip6) {
        return Trust(Some(Voucher(ByNonce, Note(io, p))));
      }
      return Refused;
    }

    method AcceptSource(n: L.Node, p0: Peer, v: Option<Voucher>, io: Io, p: Packet) returns (outs: seq<Out>)
      requires list.Valid() && list.locked && n in list.young && WellFormed(p.ip6) && n.key == Src(p.ip6)
      modifies list`locked, n`peer, this`clock
      ensures Valid()
      ensures Result(Value(), outs, true) == Accepted(old(Value()), io, p, old(list.Model()), p0, v)
    {
      hide L.PeerList.Valid, L.PeerList.Model, Predecap, Emit, Inner;
      outs := Predecapsulate(n, Accept(p0, p.source, v), p.source, io.now);
      if !IsBubble(p.ip6) {
        outs := outs + [Deliver(Inner(p))];
      } else {
        assert outs + [] == outs;
      }
    }

    /** Client cases 3 and 5 and the extensions; `islocal` was computed under the state lock. */
    method TakeTeredo(n0: L.Node?, islocal: bool, io: Io, p: Packet) returns (outs: seq<Out>)
      requires list.Valid() && WellFormed(p.ip6) && Found(n0, Src(p.ip6)) && islocal == IsLocal(Value(), p)
      requires n0 != null ==> n0.peer.local.Set? && n0.peer.mapping.Set?
      requires n0 != null ==> Src(p.ip6) in list.Model().peers && list.Model().peers[Src(p.ip6)] == n0.peer
      modifies this`clock, list, list.young, list.elder
      ensures Valid()
      ensures Result(Value(), outs, true)
           == ReceiveTeredo(env, old(Value()), io, p, old(list.Model()), n0 != null)
    {
      hide L.PeerList.Valid, L.PeerList.Model, ReceiveTeredo, Accepted, IsLocal, Judge, Lookup;
      var n := n0;
      TeredoCases(env, Value(), io, p, list.Model(), n0 != null);
      var verdict := JudgeSource(io, if n0 != null then Some(n0.peer) else None, islocal, p);
      if verdict.Refused? {
        if n != null {
          list.Release();
        }
        clock := io.now;
        return [];
      }
      if client && n == null {
        var created;
        n, created := list.Lookup(Src(p.ip6), true, io.memory, io.memory);
        if n == null {
          MissKeeps(old(list.Model()), Src(p.ip6), true, io.memory);
          clock := io.now;
          return [];
        }
        NewEntry(n, old(list.Model()), io.memory);
        AcceptedFromList(old(Value()), io, p, list.Model(), n.peer.(local := Set(islocal)), verdict.voucher);
      }
      if n == null {
        clock := io.now;
        return [];
      }
      outs := AcceptSource(n, if n0 == null then n.peer.(local := Set(islocal)) else n.peer, verdict.voucher, io, p);
    }

    lemma NewEntry(n: L.Node, c: Cache<Peer>, memory: bool)
      requires list.Valid() && n in list.young && n.key !in c.peers
      requires list.Model() == Lookup(c, n.key, true, memory, BLANK).0
      requires Lookup(c, n.key, true, memory, BLANK).1 != Missing
      ensures n.peer == BLANK
    {
      hide L.PeerList.Valid, L.PeerList.Model;
      list.PeerAt(n);
    }

    /** Client case 6. */
    method TakeNative(n0: L.Node?, io: Io, p: Packet) returns (outs: seq<Out>)
      requires list.Valid() && WellFormed(p.ip6) && Found(n0, Src(p.ip6))
      requires n0 != null ==> Src(p.ip6) in list.Model().peers && list.Model().peers[Src(p.ip6)] == n0.peer
      requires n0 != null ==> PingReady(n0.peer, io.now)
      modifies this`clock, list, list.young, list.elder
      ensures Valid()
      ensures Result(Value(), outs, true) == ReceiveNative(env, old(Value()), io, p, old(list.Model()))
    {
      hide L.PeerList.Valid, L.PeerList.Model, CountPing, Ping, Enqueue, Inner, Touch, Insert;
      var k, n := Src(p.ip6), n0;
      if n == null {
        var created;
        n, created := list.Lookup(k, true, io.memory, io.memory);
        if n == null {
          clock := io.now;
          return [];
        }
        list.PeerAt(n);
      }
      var q := n.peer;
      if n0 == null {
        q := Begin(q).(mapping := Set(NOWHERE));
      }
      q := Enqueue(q, Item(Inner(p), p.source, true)).(lastRx := Set(io.now));
      var res;
      res, q := CountPings(q, io.now);
      Commit(n, q, io.now);
      outs := if res == Yes && io.first
              then [Send(Control, Endpoint(state.addr.server, TEREDO_PORT), Ping(env, io.wall, state.addr, k))]
              else [];
    }

    /** The entry found for a packet's source can be read as the step needs. */
    lemma Readable(t: Relay.Tunnel, n: L.Node, io: Io, p: Packet)
      requires list.Valid() && n in list.young && WellFormed(p.ip6) && n.key == Src(p.ip6)
      requires AllReady(t) && t.clock <= io.now && list.Model().peers == t.list.peers
      ensures n.key in list.Model().peers && list.Model().peers[n.key] == n.peer
      ensures n.peer.trusted.Set? && n.peer.local.Set? && n.peer.mapping.Set? && BubbleReady(n.peer, io.now)
      ensures t.client && t.state.up && n.key.prefix != t.state.addr.prefix ==> PingReady(n.peer, io.now)
    {
      hide L.PeerList.Valid, L.PeerList.Model;
      list.PeerAt(n);
    }

    /** Client cases 1 and 2: the packet is taken if the entry is trusted at its source, or a ping reply makes it. */
    method TakeKnown(n: L.Node, io: Io, p: Packet) returns (taken: bool, outs: seq<Out>)
      requires list.Valid() && list.locked && n in list.young && WellFormed(p.ip6) && n.key == Src(p.ip6)
      requires n.peer.trusted.Set? && n.peer.mapping.Set?
      modifies list`locked, n`peer, this`clock
      ensures !taken ==> list.Valid() && list.locked && Value() == old(Value()) && outs == [] && n.peer == old(n.peer)
      ensures taken ==> Valid()
      ensures taken <==> old((n.peer.trusted.v && p.source == n.peer.mapping.v)
                             || (client && CheckPing(env, io.wall, p.ip6)))
      ensures taken ==>
        var q := old(n.peer);
        Result(Value(), outs, true)
        == if q.trusted.v && p.source == q.mapping.v then
             Result(Put(old(Value()), old(list.Model()), n.key, Predecap(q, io.now), io.now),
                    Emit(q.queue, p.source) + [Deliver(Inner(p))], true)
           else
             Result(Put(old(Value()), old(list.Model()), n.key,
                        Predecap(Accept(q, p.source, Some(Voucher(ByPing, Noted(old(Value()), io, p)))), io.now),
                        io.now),
                    Emit(q.queue, p.source), true)
    {
      hide L.PeerList.Valid, L.PeerList.Model, Predecap, Emit, Inner, CheckPing;
      outs := [];
      if n.peer.trusted.v && p.source == n.peer.mapping.v {
        outs := Predecapsulate(n, n.peer, p.source, io.now);
        return true, outs + [Deliver(Inner(p))];
      }
      if client && CheckPing(env, io.wall, p.ip6) {
        var q := Accept(n.peer, p.source, Some(Voucher(ByPing, Note(io, p))));
        outs := Predecapsulate(n, q, p.source, io.now);
        return true, outs;
      }
      return false, [];
    }

    /** Any other packet. */
    method TakeUnicast(n: L.Node?, islocal: bool, io: Io, p: Packet) returns (outs: seq<Out>)
      requires list.Valid() && WellFormed(p.ip6) && Found(n, Src(p.ip6)) && islocal == IsLocal(Value(), p)
      requires n != null ==> n.peer.trusted.Set? && n.peer.local.Set? && n.peer.mapping.Set?
      requires n != null && Src(p.ip6).prefix != state.addr.prefix ==> PingReady(n.peer, io.now)
      requires n != null ==> Src(p.ip6) in list.Model().peers && list.Model().peers[Src(p.ip6)] == n.peer
      modifies this`clock, list, list.young, list.elder
      ensures Valid()
      ensures Result(Value(), outs, true) == Unicast(env, old(Value()), io, p, old(list.Model()), n != null)
    {
      hide L.PeerList.Valid, L.PeerList.Model, ReceiveTeredo, ReceiveNative, Predecap, Emit, Inner, CheckPing, IsNeighbour,
        PingReady;
      if n != null {
        var taken;
        taken, outs := TakeKnown(n, io, p);
        if taken {
          return;
        }
      }
      if Src(p.ip6).prefix == state.addr.prefix {
        outs := TakeTeredo(n, islocal, io, p);
      } else {
        outs := TakeNative(n, io, p);
      }
    }

    /** Reception proper, by a relay or a qualified client. */
    method TakePacket(io: Io, p: Packet) returns (outs: seq<Out>)
      requires Valid() && AllReady(Value()) && clock <= io.now && WellFormed(p.ip6)
      requires if client then state.up else Src(p.ip6).prefix == state.addr.prefix
      modifies this`clock, list, list.young, list.elder
      ensures Valid()
      ensures Result(Value(), outs, true) == ReceiveFrom(env, old(Value()), io, p)
    {
      hide L.PeerList.Valid, L.PeerList.Model, AllReady, Lookup, ReceiveDiscovery, ReceiveFrom, Unicast, IsNeighbour,
        IsDiscoveryBubble, PingReady, BubbleReady;
      var k := Src(p.ip6);
      var islocal := CheckLocal(p);
      FindOnly(list.Model(), k, io.memory);
      FromCases(env, Value(), io, p);
      var n, created := list.Lookup(k, false, io.memory, io.memory);
      ghost var t := old(Value());
      if n != null {
        Readable(t, n, io, p);
      }
      if islocal && IsDiscoveryBubble(p) {
        DiscoveryFromList(t, io, p, list.Model());
        outs := TakeDiscovery(n, io, p);
        return;
      }
      if IsMulticast(Dst(p.ip6)) {
        if n != null {
          list.Release();
        }
        clock := io.now;
        return [];
      }
      UnicastFromList(env, t, io, p, list.Model(), n != null);
      outs := TakeUnicast(n, islocal, io, p);
    }

    /** `teredo_run_inner`; handing a packet to the maintenance procedure is the subject of Handoff. */
    method ReceivePacket(io: Io, p: Packet) returns (outs: seq<Out>)
      requires Valid() && AllReady(Value()) && clock <= io.now
      modifies this`clock, list, list.young, list.elder
      ensures Valid()
      ensures Result(Value(), outs, true) == Receive(env, old(Value()), io, p)
    {
      hide L.PeerList.Valid, L.PeerList.Model, AllReady, ReceiveFrom, Bubble;
      if !WellFormed(p.ip6) {
        return [];
      }
      outs := [];
      if client {
        if Advert.IsMaintenance(p) || !state.up {
          return;
        }
        if p.source == Endpoint(state.addr.server, TEREDO_PORT) {
          var e := p.orig;
          if e.ip == ZERO32 && IsBubble(p.ip6) && Src(p.ip6).prefix == state.addr.prefix {
            e := ClientMapping(Src(p.ip6));
          }
          if e.ip != ZERO32 {
            outs := ReplyBubble(e, p.ip6);
            if IsBubble(p.ip6) {
              return;
            }
          }
        }
        if IsLinkLocal(Src(p.ip6)) {
          return;
        }
      } else if Src(p.ip6).prefix != state.addr.prefix {
        return;
      }
      var more := TakePacket(io, p);
      assert [] + more == more;
      outs := outs + more;
    }

    /** `teredo_state_change`: peers of the previous state are forgotten before the new one is announced. */
    method ChangeState(s: State, ifaces: Option<seq<Iface>>) returns (outs: seq<Out>)
      requires Valid()
      modifies this`state, this`discovery, list
      ensures Valid() && (Value(), outs) == StateChange(old(Value()), s, ifaces)
      ensures s.up ==> list.freed == old(list.freed) + (set n | n in old(list.elder)) + set n | n in old(list.young)
    {
      hide L.PeerList.Valid, L.PeerList.Model;
      var previouslyUp := state.up;
      state := s;
      outs := [];
      if state.up {
        if discovery.Some? {
          discovery := None;
        }
        list.Reset(MAX_PEERS);
        outs := [Up(state.addr, state.mtu)];
        if netmask.Some? && ifaces.Some? {
          discovery := Some(Discovery(state.addr, ifaces.value));
        }
      } else if previouslyUp {
        outs := [Down];
      }
    }
  }
}
