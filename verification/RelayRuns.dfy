/** Runs of one tunnel: any sequence of transmissions, receptions, collections, configuration calls and
    state changes, from its creation on. */
module RelayRuns {
  import opened Net
  import opened Packets
  import opened Peers
  import opened PeerCache
  import opened Relay
  import opened RelayLaws

  datatype Event =
    | Tx(io: Io, data: Bytes)
    | Rx(io: Io, packet: Packet)
    | Change(state: State, ifaces: Option<seq<Iface>>)
    | Gc
    | Prefix(host: ByteOrder, prefix: W32)
    | Cone(flag: bool)
    | ClientMode(memory: bool, started: bool)
    | Params(mask: Option<W32>)

  /** The clock does not go backwards, and transmitted packets have an IPv6 header. */
  predicate Timely(t: Tunnel, e: Event) {
    match e
    case Tx(io, data) => t.clock <= io.now && |data| >= 40
    case Rx(io, _) => t.clock <= io.now
    case _ => true
  }

  function Step(env: Env, t: Tunnel, e: Event): (Tunnel, seq<Out>)
    requires AllReady(t) && Timely(t, e)
  {
    match e
    case Tx(io, data) => var r := Transmit(env, t, io, data); (r.tunnel, r.outs)
    case Rx(io, p) => var r := Receive(env, t, io, p); (r.tunnel, r.outs)
    case Change(s, ifaces) => StateChange(t, s, ifaces)
    case Gc => (CollectGarbage(t), [])
    case Prefix(host, prefix) => (SetPrefix(host, t, prefix), [])
    case Cone(flag) => (SetCone(t, flag), [])
    case ClientMode(memory, started) => (SetClientMode(t, memory, started), [])
    case Params(mask) => (SetDiscovery(t, mask), [])
  }

  /** A run: states, the events between them and what each event emits.  A step from a state in which it would
      read an unset field is left unconstrained; none of the theorems below assumes there is no such state. */
  ghost predicate IsRun(env: Env, ts: seq<Tunnel>, es: seq<Event>, os: seq<seq<Out>>) {
    && |ts| == |es| + 1 == |os| + 1
    && (exists e, now :: ts[0] == Create(e, now))
    && forall i :: 0 <= i < |es| ==>
         Timely(ts[i], es[i]) && (AllReady(ts[i]) ==> Step(env, ts[i], es[i]) == (ts[i + 1], os[i]))
  }

  /** The receptions of a sequence of events, each as it was noted in the state it found. */
  function Seen(ts: seq<Tunnel>, es: seq<Event>): set<Reception>
    requires |es| <= |ts|
  {
    if es == [] then {}
    else
      var n := |es| - 1;
      var e := es[n];
      Seen(ts, es[..n]) + if e.Rx? then {Noted(ts[n], e.io, e.packet)} else {}
  }

  lemma {:induction false} SeenWhen(ts: seq<Tunnel>, es: seq<Event>, r: Reception) returns (i: nat)
    requires |es| <= |ts| && r in Seen(ts, es)
    ensures i < |es| && es[i].Rx? && r == Noted(ts[i], es[i].io, es[i].packet)
    decreases |es|
  {
    hide Noted;
    var n := |es| - 1;
    if r in Seen(ts, es[..n]) {
      i := SeenWhen(ts, es[..n], r);
    } else {
      i := n;
    }
  }

  /** No event breaks a law. */
  lemma StepKeeps(env: Env, seen: set<Reception>, t: Tunnel, e: Event)
    requires Inv(env, seen, t) && Timely(t, e)
    ensures AllReady(t)
    ensures var (t', outs) := Step(env, t, e);
            Inv(env, if e.Rx? then seen + {Noted(t, e.io, e.packet)} else seen, t') && AllOk(t', outs)
  {
    hide Lawful, Transmit, Receive;
    InvReady(env, seen, t);
    match e
    case Tx(io, data) => TransmitKeeps(env, seen, t, io, data);
    case Rx(io, p) => ReceiveKeeps(env, seen, t, io, p);
    case Change(s, ifaces) => ChangeKeeps(env, seen, t, s, ifaces);
    case _ =>
  }

  lemma ChangeKeeps(env: Env, seen: set<Reception>, t: Tunnel, s: State, ifaces: Option<seq<Iface>>)
    requires Inv(env, seen, t)
    ensures var (t', outs) := StateChange(t, s, ifaces);
            && Inv(env, seen, t') && AllOk(t', outs)
            && t'.state == s && (s.up ==> t'.list == Empty(MAX_PEERS)) && (!s.up ==> t'.list == t.list)
            && (s.up ==> outs == [Up(s.addr, s.mtu)] && (t'.discovery.Some? <==> t.netmask.Some? && ifaces.Some?))
            && (!s.up ==> outs == (if t.state.up then [Down] else []) && t'.discovery == t.discovery)
  {
    hide Lawful;
    var (t', outs) := StateChange(t, s, ifaces);
    forall k | k in t'.list.peers ensures Good(env, seen, ContextOf(t'), k, t'.list.peers[k]) {
      assert Good(env, seen, ContextOf(t), k, t.list.peers[k]);
    }
  }

  /** The configuration calls: the prefix of a relay becomes any valid one, its cone flag what is asked for, its other
      flag bits stay; clients, whose state is the maintenance procedure's, refuse both. */
  lemma Configured(host: ByteOrder, t: Tunnel, prefix: W32, cone: bool, mask: Option<W32>)
    ensures var a, b := SetPrefix(host, t, prefix), SetCone(t, cone);
            && a.state.addr.prefix == (if !t.client && IsValidPrefix(host, prefix) then prefix else t.state.addr.prefix)
            && a == t.(state := t.state.(addr := t.state.addr.(prefix := a.state.addr.prefix)))
            && (IsCone(b.state.addr) <==> if t.client then IsCone(t.state.addr) else cone)
            && b.state.addr.flags.b0 % 128 == t.state.addr.flags.b0 % 128 && b.state.addr.flags.b1 == t.state.addr.flags.b1
            && b == t.(state := t.state.(addr := t.state.addr.(flags := b.state.addr.flags)))
            && SetDiscovery(t, mask).netmask == mask && SetDiscovery(t, mask) == t.(netmask := mask)
  {
    hide IsValidPrefix;
    assert t.state.addr.flags.b0 >= 128 ==> (t.state.addr.flags.b0 - 128) % 128 == t.state.addr.flags.b0 % 128;
  }

  /** In every reachable state no step can read an unset field, every law holds of every peer -- its trusted
      mapping in particular is the source of a packet received in this very run -- and whatever a step emits
      respects the trust rule in the state it leaves. */
  lemma {:induction false} EveryRun(env: Env, ts: seq<Tunnel>, es: seq<Event>, os: seq<seq<Out>>, n: nat)
    requires IsRun(env, ts, es, os) && n <= |es|
    ensures AllReady(ts[n]) && Inv(env, Seen(ts, es[..n]), ts[n])
    ensures n > 0 ==> AllOk(ts[n], os[n - 1])
    decreases n
  {
    hide Good, AllOk, Step, OutOk;
    if n > 0 {
      EveryRun(env, ts, es, os, n - 1);
      var i := n - 1;
      StepKeeps(env, Seen(ts, es[..i]), ts[i], es[i]);
      assert Step(env, ts[i], es[i]) == (ts[i + 1], os[i]);
      assert es[..n][..i] == es[..i] && es[..n][i] == es[i];
      assert Seen(ts, es[..n])
          == if es[i].Rx? then Seen(ts, es[..i]) + {Noted(ts[i], es[i].io, es[i].packet)} else Seen(ts, es[..i]);
    } else {
      assert ts[0].list.peers == map[];
    }
    InvReady(env, Seen(ts, es[..n]), ts[n]);
  }

  /** Trust provenance, spelled out for one peer of one reachable state: an earlier event of the run received the
      packet that the mapping comes from, and it passed a test with the clock, the mode and the place on the local
      network that the tunnel had then. */
  lemma TrustHasASource(env: Env, ts: seq<Tunnel>, es: seq<Event>, os: seq<seq<Out>>, n: nat, k: Addr)
      returns (i: nat, proof: Proof)
    requires IsRun(env, ts, es, os) && n <= |es| && k in ts[n].list.peers
    requires ts[n].list.peers[k].trusted == Set(true)
    ensures i < n && es[i].Rx?
    ensures var p := es[i].packet;
            && ts[n].list.peers[k].mapping == Set(p.source)
            && WellFormed(p.ip6) && Src(p.ip6) == k
            && match proof
               case ByPing => ts[i].client && CheckPing(env, es[i].io.wall, p.ip6)
               case ByMatch => MatchesClient(k, p.source)
               case ByNonce => IsBubble(p.ip6) && CheckBubble(env, p.ip6)
               case ByLocality => IsLocal(ts[i], p)
               case ByDiscovery => IsLocal(ts[i], p) && IsDiscoveryBubble(p)
  {
    hide CheckPing, CheckBubble, MatchesClient, IsNeighbour, IsDiscoveryBubble, AllReady;
    EveryRun(env, ts, es, os, n);
    var v := ts[n].list.peers[k].log.voucher.value;
    i := SeenWhen(ts, es[..n], v.at);
    proof := v.proof;
  }

  /** Bubble rates, for one peer of one reachable state. */
  lemma RatesHold(env: Env, ts: seq<Tunnel>, es: seq<Event>, os: seq<seq<Out>>, n: nat, k: Addr, i: nat)
    requires IsRun(env, ts, es, os) && n <= |es| && k in ts[n].list.peers
    ensures var p := ts[n].list.peers[k];
            var b, g := p.log.bubbles, p.log.pings;
            && (i + 1 < |b| ==> b[i] + 2 < b[i + 1])
            && (i + 4 < |b| ==> b[i] + 300 < b[i + 4])
            && (i + 1 < |g| ==> g[i] + 2 < g[i + 1])
            && |g| <= 4
            && p.bubbles.Set? && p.bubbles.v <= 4 && (p.pings.Set? ==> p.pings.v <= 4)
            && p.queueLeft + Total(p.queue) == MAX_QUEUE
  {
    hide Vouches, Filed;
    EveryRun(env, ts, es, os, n);
    BubbleRates(ts[n].list.peers[k], ts[n].clock, i);
  }

  // ---- What becomes of a packet ----

  /** The queue for `k`; a peer that is not listed has an empty one. */
  function SlotAt(t: Tunnel, k: Addr): Slot {
    if k in t.list.peers then SlotOf(t.list.peers[k]) else EMPTY_SLOT
  }

  /** A transmitted packet is sent alone to the mapping of a trusted peer, or put at the head of its peer's queue,
      or neither; an error quotes it and comes alone. */
  ghost predicate Disposed(t: Tunnel, packet: Bytes, r: Result)
    requires |packet| >= 40
  {
    var k := Dst(packet);
    && (forall o :: o in r.outs && !IsControl(o) ==>
          && r.outs == [o] && o.Send? && o.data == packet && SlotAt(r.tunnel, k) == SlotAt(t, k)
          && k in t.list.peers && t.list.peers[k].trusted == Set(true) && t.list.peers[k].mapping == Set(o.to))
    && (forall o :: o in r.outs && o.Unreachable? ==> r.outs == [o] && o.packet == packet)
    && (|| SlotAt(r.tunnel, k) == SlotAt(t, k)
        || SlotAt(r.tunnel, k) == Offer(SlotAt(t, k), Item(packet, NOWHERE, false)))
  }

  /** What queueing and counting leave in the queue. */
  lemma TxQueues(p: Peer, created: bool, packet: Bytes, now: nat)
    ensures PingReady(p, now) ==>
      SlotOf(TxProbe(p, created, packet, now).1) == Offer(SlotOf(p), Item(packet, NOWHERE, false))
    ensures BubbleReady(p, now) ==>
      SlotOf(TxBubble(p, packet, now).1) == Offer(SlotOf(p), Item(packet, NOWHERE, false))
  {
  }

  /** A step that files one peer, emits control traffic and perhaps an error. */
  lemma FiledDisposes(t: Tunnel, packet: Bytes, list: Cache<Peer>, q: Peer, now: nat, outs: seq<Out>, ok: bool)
    requires |packet| >= 40
    requires SlotOf(q) == Offer(SlotAt(t, Dst(packet)), Item(packet, NOWHERE, false))
    requires !HasError(outs) && forall o :: o in outs ==> IsControl(o)
    ensures var t' := Put(t, list, Dst(packet), q, now);
            && Disposed(t, packet, Result(t', outs, ok))
            && Disposed(t, packet, Refuse(t', now, UNREACH_ADDR, packet))
  {
    hide Limit;
  }

  lemma UntrustedDisposes(env: Env, t: Tunnel, io: Io, packet: Bytes, list: Cache<Peer>, p: Peer, created: bool)
    requires Connectable(t, io.now, packet, p) && SlotOf(p) == SlotAt(t, Dst(packet))
    ensures Disposed(t, packet, TransmitUntrusted(env, t, io, packet, list, p, created))
  {
    hide TxProbe, TxBubble, PunchHole, Multicast, Ping, Bubble, IsFresh, Disposed, Refuse, Put;
    var k := Dst(packet);
    ControlOuts(env, t, io, packet, p);
    if k.prefix != t.state.addr.prefix {
      TxQueues(p, created, packet, io.now);
      var q := TxProbe(p, created, packet, io.now).1;
      var ping := [Send(Control, Endpoint(t.state.addr.server, TEREDO_PORT), Ping(env, io.wall, t.state.addr, k))];
      FiledDisposes(t, packet, list, q, io.now, [], true);
      FiledDisposes(t, packet, list, q, io.now, ping, true);
    } else if p.local.v && IsFresh(p, io.now) {
      TxQueues(p, created, packet, io.now);
      var q := TxBubble(p, packet, io.now).1;
      var bubbles := [Send(Control, p.mapping.v, Bubble(t.state.addr, k))] + Multicast(t.discovery.value);
      FiledDisposes(t, packet, list, q, io.now, [], true);
      FiledDisposes(t, packet, list, q, io.now, bubbles, true);
    } else {
      var p0 := if created then p.(mapping := Set(ClientMapping(k))) else p;
      TxQueues(p0, created, packet, io.now);
      var q := TxBubble(p0, packet, io.now).1;
      PunchHoleControl(env, t.state, k, io);
      PunchHoleErrors(env, t.state, k, io);
      FiledDisposes(t, packet, list, q, io.now, [], true);
      FiledDisposes(t, packet, list, q, io.now, PunchHole(env, t.state, k, io).0, PunchHole(env, t.state, k, io).1);
    }
  }

  lemma ControlOuts(env: Env, t: Tunnel, io: Io, packet: Bytes, p: Peer)
    requires |packet| >= 40 && p.local.Set? && (p.local.v ==> p.mapping.Set? && t.discovery.Some?)
    ensures var ping := Ping(env, io.wall, t.state.addr, Dst(packet));
            var s := [Send(Control, Endpoint(t.state.addr.server, TEREDO_PORT), ping)];
            !HasError(s) && forall o :: o in s ==> IsControl(o)
    ensures p.local.v ==>
      var s := [Send(Control, p.mapping.v, Bubble(t.state.addr, Dst(packet)))] + Multicast(t.discovery.value);
      !HasError(s) && forall o :: o in s ==> IsControl(o)
  {
    hide Ping, Bubble, Multicast;
    if p.local.v {
      MulticastControl(t.discovery.value);
      MulticastErrors(t.discovery.value);
    }
  }

  lemma RefuseDisposes(t: Tunnel, now: nat, code: byte, packet: Bytes)
    requires |packet| >= 40
    ensures Disposed(t, packet, Refuse(t, now, code, packet)) && Disposed(t, packet, Result(t, [], true))
    ensures Disposed(t, packet, Result(t, [], false))
  {
    hide Limit;
  }

  lemma TrustedDisposes(t: Tunnel, io: Io, packet: Bytes, list: Cache<Peer>, p: Peer)
    requires |packet| >= 40 && Dst(packet) in t.list.peers && t.list.peers[Dst(packet)] == p
    requires p.trusted == Set(true) && p.mapping.Set?
    ensures Disposed(t, packet, Result(Put(t, list, Dst(packet), p.(lastTx := Set(io.now)), io.now),
                                       if io.first then [Send(Payload, p.mapping.v, packet)] else [], io.first))
  {
  }

  lemma TransmitDisposes(env: Env, t: Tunnel, io: Io, packet: Bytes)
    requires AllReady(t) && t.clock <= io.now && |packet| >= 40
    ensures Disposed(t, packet, Transmit(env, t, io, packet))
  {
    hide TransmitUntrusted, Touch, Refuse, Disposed, Put, IsGlobalUnicast;
    var k := Dst(packet);
    RefuseDisposes(t, io.now, UNREACH_ADDR, packet);
    RefuseDisposes(t, io.now, UNREACH_ADMIN, packet);
    TouchPeers(t.list, k);
    var (list, outcome) := Lookup(t.list, k, true, io.memory, BLANK);
    if outcome != Missing {
      var p := if outcome == Created then Begin(BLANK) else list.peers[k];
      if outcome == Hit && p.trusted.v {
        TrustedDisposes(t, io, packet, list, p);
      }
      if Connectable(t, io.now, packet, p) {
        UntrustedDisposes(env, t, io, packet, list, p, outcome == Created);
      }
    }
  }

  // ---- Error rate ----

  /** The clock readings at which a run emitted unreachable errors. */
  function ErrorTimes(es: seq<Event>, os: seq<seq<Out>>): seq<nat>
    requires |es| == |os|
  {
    if es == [] then []
    else
      var n := |es| - 1;
      var e, before := es[n], ErrorTimes(es[..n], os[..n]);
      if e.Tx? && HasError(os[n]) then before + [e.io.now] else before
  }

  predicate HasError(outs: seq<Out>) {
    exists o :: o in outs && o.Unreachable?
  }

  /** A transmission consults the limiter at most once, and emits an error only with its consent. */
  ghost predicate Consulted(t: Tunnel, now: nat, r: Result) {
    || (r.tunnel.limiter == t.limiter && !HasError(r.outs) && r.tunnel.clock in {t.clock, now})
    || (&& (r.tunnel.limiter, HasError(r.outs)) == Limit(t.limiter, now)
        && r.tunnel.clock == now)
  }

  lemma RefuseConsults(t0: Tunnel, t: Tunnel, now: nat, code: byte, packet: Bytes)
    requires t.limiter == t0.limiter
    ensures Consulted(t0, now, Refuse(t, now, code, packet))
  {
    var r := Refuse(t, now, code, packet);
    if Limit(t.limiter, now).1 {
      assert r.outs[0].Unreachable?;
    }
  }

  lemma UntrustedConsults(env: Env, t: Tunnel, io: Io, packet: Bytes, list: Cache<Peer>, p: Peer, created: bool)
    requires Connectable(t, io.now, packet, p)
    ensures Consulted(t, io.now, TransmitUntrusted(env, t, io, packet, list, p, created))
  {
    hide Refuse, TxProbe, TxBubble, PunchHole, Multicast, Ping, Bubble, Limit;
    var k := Dst(packet);
    var q := if created then p.(mapping := Set(ClientMapping(k))) else p;
    PunchHoleErrors(env, t.state, k, io);
    if k.prefix != t.state.addr.prefix {
      RefuseConsults(t, Put(t, list, k, TxProbe(p, created, packet, io.now).1, io.now), io.now, UNREACH_ADDR, packet);
    } else {
      RefuseConsults(t, Put(t, list, k, TxBubble(q, packet, io.now).1, io.now), io.now, UNREACH_ADDR, packet);
      RefuseConsults(t, Put(t, list, k, TxBubble(p, packet, io.now).1, io.now), io.now, UNREACH_ADDR, packet);
      if t.discovery.Some? {
        MulticastErrors(t.discovery.value);
      }
    }
  }

  lemma PunchHoleErrors(env: Env, s: State, dst: Addr, io: Io)
    ensures !HasError(PunchHole(env, s, dst, io).0)
  {
    hide BubbleSource, Bubble;
  }

  lemma MulticastErrors(d: Discovery)
    ensures !HasError(Multicast(d))
  {
    hide Bubble;
  }

  lemma TransmitConsults(env: Env, t: Tunnel, io: Io, packet: Bytes)
    requires AllReady(t) && t.clock <= io.now && |packet| >= 40
    ensures Consulted(t, io.now, Transmit(env, t, io, packet))
  {
    hide Refuse, TransmitUntrusted, Limit;
    RefuseConsults(t, t, io.now, UNREACH_ADDR, packet);
    RefuseConsults(t, t, io.now, UNREACH_ADMIN, packet);
    var (list, outcome) := Lookup(t.list, Dst(packet), true, io.memory, BLANK);
    if outcome != Missing {
      var p := if outcome == Created then Begin(BLANK) else list.peers[Dst(packet)];
      if Connectable(t, io.now, packet, p) {
        UntrustedConsults(env, t, io, packet, list, p, outcome == Created);
      }
    }
  }

  /** Reception never touches the limiter. */
  lemma ReceiveQuiet(env: Env, t: Tunnel, io: Io, p: Packet)
    requires AllReady(t) && t.clock <= io.now
    ensures var r := Receive(env, t, io, p);
            r.tunnel.limiter == t.limiter && t.clock <= r.tunnel.clock
  {
    hide ReplyBubble, BubbleOrigin, Judge, CheckPing, Inner, Predecap, Accept, Emit, CountBubble, CountPing, Enqueue,
      Begin, Ping, Bubble, Lookup, IsNeighbour, IsDiscoveryBubble, ResetBubbles;
  }

  ghost predicate LimiterLaw(t: Tunnel, errors: seq<nat>, at: nat) {
    t.limiter.last <= t.clock && Within(t.limiter, errors, at)
  }

  lemma StepLimited(env: Env, t: Tunnel, e: Event, errors: seq<nat>, at: nat)
    requires AllReady(t) && Timely(t, e) && LimiterLaw(t, errors, at)
    ensures var (t', outs) := Step(env, t, e);
            LimiterLaw(t', if e.Tx? && HasError(outs) then errors + [e.io.now] else errors, at)
  {
    hide AllReady, Transmit, Receive, Within, HasError;
    match e
    case Tx(io, data) =>
      TransmitConsults(env, t, io, data);
      LimitStep(t.limiter, errors, io.now, at);
    case Rx(io, p) =>
      ReceiveQuiet(env, t, io, p);
    case _ =>
  }

  /** In every run, at most ten unreachable errors are emitted at any one clock reading. */
  lemma {:induction false} ErrorsBounded(env: Env, ts: seq<Tunnel>, es: seq<Event>, os: seq<seq<Out>>, n: nat, at: nat)
    requires IsRun(env, ts, es, os) && n <= |es|
    ensures LimiterLaw(ts[n], ErrorTimes(es[..n], os[..n]), at)
    ensures CountAt(ErrorTimes(es[..n], os[..n]), at) <= 10
    decreases n
  {
    hide AllReady, Step, HasError, CountAt;
    if n > 0 {
      var i := n - 1;
      ErrorsBounded(env, ts, es, os, i, at);
      EveryRun(env, ts, es, os, i);
      StepLimited(env, ts[i], es[i], ErrorTimes(es[..i], os[..i]), at);
      assert Step(env, ts[i], es[i]) == (ts[i + 1], os[i]);
      assert es[..n][..i] == es[..i] && os[..n][..i] == os[..i];
    } else {
      NoErrorsYet(at);
      NoErrorsYet(ts[0].limiter.last);
    }
  }

  lemma NoErrorsYet(at: nat)
    ensures CountAt([], at) == 0
  {
  }
}
