/** Hole punching (section 5.2.4 of RFC 4380) through two tunnels and a server, datagram by datagram. */
module HolePunch {
  import opened Net
  import opened Codec
  import opened Packets
  import opened Peers
  import opened PeerCache
  import opened Relay
  import opened RelayLaws
  import opened RelayRuns
  import opened OneEntry
  import Sending
  import Server

  /** The bubble A sends about B, whose link-local source carries A's nonce for B. */
  function Probe(env: Env, b: Addr): (d: Bytes)
    ensures |d| == 40 && WellFormed(d) && IsBubble(d) && Src(d) == BubbleSource(env, b) && Dst(d) == b
  {
    Bubble(BubbleSource(env, b), b)
  }

  /** B's answer to it. */
  function Answer(env: Env, b: Addr): (d: Bytes)
    ensures |d| == 40 && WellFormed(d) && IsBubble(d) && Src(d) == b && Dst(d) == BubbleSource(env, b)
  {
    Bubble(b, BubbleSource(env, b))
  }

  lemma BubbleDecodes(d: Bytes, orig: Endpoint)
    requires WellFormed(d)
    ensures Decode((if orig == NOWHERE then [] else OriginHeader(orig)) + d) == Some(Frame(None, orig, d))
  {
    hide OriginHeader, Decode;
    var f := Frame(None, orig, d);
    RoundTrip(f);
    assert Encode(f) == (if orig == NOWHERE then [] else OriginHeader(orig)) + d;
  }

  // ---- A opens ----

  /** A may transmit to B: qualified or a relay, same Teredo prefix, B's server global. */
  predicate MayConnect(t: Tunnel, b: Addr) {
    && (t.client ==> t.state.up)
    && b.prefix == t.state.addr.prefix && !IsMulticast(b) && IsGlobalUnicast(b.server)
  }

  /** B unlisted, room for an entry, datagrams can be sent, the packet fits the queue. */
  predicate FirstContact(t: Tunnel, io: Io, b: Addr, packet: Bytes) {
    && b !in t.list.peers && t.list.left > 0
    && io.memory && io.first && io.second && t.clock <= io.now
    && 40 <= |packet| <= MAX_QUEUE && Dst(packet) == b
  }

  /** The entry A then holds for B: untrusted, with the packet waiting. */
  function Waiting(b: Addr, packet: Bytes, now: nat): Peer
    requires |packet| <= MAX_QUEUE
  {
    TxBubble(Begin(BLANK).(mapping := Set(ClientMapping(b))), packet, now).1
  }

  /** The datagrams that open: directly to B, so that A's own NAT lets B's answer in, unless A is behind a cone NAT or
      B's mapping is not global; then through B's server. */
  function Opening(env: Env, t: Tunnel, b: Addr): seq<Out> {
    (if !IsCone(t.state.addr) && IsGlobalUnicast(ClientMapping(b).ip)
     then [Send(Control, ClientMapping(b), Probe(env, b))] else [])
    + [Send(Control, Endpoint(b.server, TEREDO_PORT), Probe(env, b))]
  }

  lemma Opens(env: Env, t: Tunnel, io: Io, b: Addr, packet: Bytes)
    requires AllReady(t) && MayConnect(t, b) && FirstContact(t, io, b, packet)
    ensures var r := Transmit(env, t, io, packet);
            && r.ok && r.tunnel.state == t.state && r.tunnel.client == t.client && r.tunnel.clock == io.now
            && b in r.tunnel.list.peers && r.tunnel.list.peers[b] == Waiting(b, packet, io.now)
            && r.tunnel.list.peers[b].trusted == Set(false)
            && r.tunnel.list.peers[b].queue == [Item(packet, NOWHERE, false)]
            && r.outs == Opening(env, t, b) && (forall o :: o in r.outs ==> IsControl(o))
  {
    hide Bubble, BubbleSource;
    var p := Begin(BLANK);
    var q := p.(mapping := Set(ClientMapping(b)));
    assert TransmitUntrusted(env, t, io, packet, Insert(t.list, b, BLANK), p, true)
        == Result(Put(t, Insert(t.list, b, BLANK), b, TxBubble(q, packet, io.now).1, io.now),
                  PunchHole(env, t.state, b, io).0, PunchHole(env, t.state, b, io).1);
    assert Transmit(env, t, io, packet) == TransmitUntrusted(env, t, io, packet, Insert(t.list, b, BLANK), p, true);
    PunchHoleControl(env, t.state, b, io);
    Sending.PunchHoleExact(env, t, io, b);
    OpeningIs(env, t, io, b);
  }

  lemma OpeningIs(env: Env, t: Tunnel, io: Io, b: Addr)
    requires io.first && io.second
    ensures Sending.Bubbles(env, t, io, b) == Opening(env, t, b)
  {
    hide Bubble, BubbleSource, IsGlobalUnicast;
  }

  /** If the direct bubble cannot be sent nothing is, and the caller learns it; the packet waits all the same. */
  lemma CannotOpen(env: Env, t: Tunnel, io: Io, b: Addr, packet: Bytes)
    requires AllReady(t) && MayConnect(t, b) && FirstContact(t, io.(first := true), b, packet) && !io.first
    requires !IsCone(t.state.addr) && IsGlobalUnicast(ClientMapping(b).ip)
    ensures var r := Transmit(env, t, io, packet);
            && r.outs == [] && !r.ok && b in r.tunnel.list.peers
            && r.tunnel.list.peers[b].trusted == Set(false)
            && r.tunnel.list.peers[b].queue == [Item(packet, NOWHERE, false)]
  {
    hide Transmit, AllReady, Sending.Has, HasError;
    Sending.NothingElse(env, t, io, packet);
    Sending.PayloadExact(env, t, io, packet);
    Sending.ConnectExact(env, t, io, packet);
    Sending.ErrorExact(env, t, io, packet, 3);
    Sending.WaitingExact(env, t, io, packet);
    Sending.ResultExact(env, t, io, packet);
  }

  // ---- The server forwards ----

  lemma Forwards(s: Server.Config, env: Env, b: Addr, a: Endpoint, stale: Nonce8)
    requires s.mtu <= 65535 && s.ip == b.server && s.prefix == b.prefix
    requires IsGlobalAddr(b) && IsGlobalUnicast(ClientMapping(b).ip) && IsGlobalUnicast(a.ip)
    requires !((a.ip == s.ip || a.ip == s.ip2) && a.port == TEREDO_PORT)
    ensures Server.Process(s, Packet(Probe(env, b), a, s.ip, NOWHERE, None), false, stale)
         == Server.Forward(ClientMapping(b), OriginHeader(a) + Probe(env, b))
  {
    hide Probe, OriginHeader;
    assert BubbleSource(env, b).prefix == W32(0xfe, 0x80, 0, 0);
    assert b.prefix != W32(0xfe, 0x80, 0, 0);
  }

  // ---- B replies ----

  lemma Replies(envB: Env, envA: Env, t: Tunnel, io: Io, a: Endpoint, dest: W32)
    requires AllReady(t) && t.clock <= io.now && t.client && t.state.up && IsGlobalUnicast(a.ip)
    ensures var b := t.state.addr;
            var p := Packet(Probe(envA, b), Endpoint(b.server, TEREDO_PORT), dest, a, None);
            Receive(envB, t, io, p) == Result(t, [Send(Control, a, Answer(envA, b))], true)
  {
    hide Bubble, BubbleSource, ReceiveFrom;
  }

  // ---- A is reached ----

  /** What `ReceiveFrom` does with a bubble of a listed client that it does not trust yet. */
  lemma FromUntrusted(env: Env, t: Tunnel, io: Io, p: Packet, b: Addr)
    requires AllReady(t) && t.clock <= io.now && MayConnect(t, b)
    requires b in t.list.peers && t.list.peers[b].trusted == Set(false)
    requires WellFormed(p.ip6) && IsBubble(p.ip6) && Src(p.ip6) == b && !IsMulticast(Dst(p.ip6))
    ensures Touch(t.list, b).peers == t.list.peers
    ensures t.list.peers[b].local.Set? && t.list.peers[b].mapping.Set?
    ensures ReceiveFrom(env, t, io, p) == ReceiveTeredo(env, t, io, p, Touch(t.list, b), true)
  {
    hide ReceiveTeredo, ReceiveDiscovery, ReceiveNative, IsNeighbour, Predecap, Emit, Inner, Touch;
    TouchPeers(t.list, b);
    assert Ready(ContextOf(t), b, t.list.peers[b]);
    assert !IsDiscoveryBubble(p) && !CheckPing(env, io.wall, p.ip6);
    assert Lookup(t.list, b, false, io.memory, BLANK) == (Touch(t.list, b), Hit);
  }

  /** What `Receive` does with a bubble from another client that is no discovery bubble. */
  lemma TakesTeredoPath(env: Env, t: Tunnel, io: Io, p: Packet, b: Addr)
    requires AllReady(t) && t.clock <= io.now && MayConnect(t, b) && !IsLinkLocal(b)
    requires b in t.list.peers && t.list.peers[b].trusted == Set(false)
    requires WellFormed(p.ip6) && IsBubble(p.ip6) && Src(p.ip6) == b && !IsMulticast(Dst(p.ip6)) && p.auth.None?
    requires t.client ==> !FromServer(t, p)
    ensures Touch(t.list, b).peers == t.list.peers
    ensures t.list.peers[b].local.Set? && t.list.peers[b].mapping.Set?
    ensures Receive(env, t, io, p) == ReceiveTeredo(env, t, io, p, Touch(t.list, b), true)
  {
    hide ReceiveFrom, ReceiveTeredo, ReplyBubble, BubbleOrigin, Touch, AllReady, IsGlobalUnicast;
    FromUntrusted(env, t, io, p, b);
    var r := ReceiveFrom(env, t, io, p);
    assert [] + r.outs == r.outs;
  }

  /** B's answer reaching A from wherever it really comes from makes A trust B there and empty B's queue. */
  lemma Completes(env: Env, t: Tunnel, io: Io, b: Addr, from: Endpoint, dest: W32)
    requires AllReady(t) && t.clock <= io.now && MayConnect(t, b) && !IsLinkLocal(b)
    requires b in t.list.peers && t.list.peers[b].trusted == Set(false)
    requires t.client ==> from != Endpoint(t.state.addr.server, TEREDO_PORT)
    ensures var r := Receive(env, t, io, Packet(Answer(env, b), from, dest, NOWHERE, None));
            && r.outs == Emit(t.list.peers[b].queue, from)
            && b in r.tunnel.list.peers
            && var p := r.tunnel.list.peers[b];
            p.trusted == Set(true) && p.mapping == Set(from) && p.queue == []
  {
    hide Emit, IsNeighbour, Answer, Receive, BubbleSource, Touch, AllReady;
    var p := Packet(Answer(env, b), from, dest, NOWHERE, None);
    var q := t.list.peers[b];
    TakesTeredoPath(env, t, io, p, b);
    TouchPeers(t.list, b);
    assert CheckBubble(env, p.ip6);
    assert Judge(env, t, io, Some(q), p).Trust?;
    assert Emit(q.queue, from) + [] == Emit(q.queue, from);
  }

  // ---- Meanwhile ----

  /** Traffic with other peers: transmissions to and receptions from other addresses. */
  predicate Unrelated(e: RelayRuns.Event, b: Addr) {
    match e
    case Tx(_, data) => |data| >= 40 && Dst(data) != b
    case Rx(_, p) => WellFormed(p.ip6) ==> Src(p.ip6) != b
    case _ => false
  }

  /** Such traffic leaves B's entry and the tunnel's own state alone. */
  ghost predicate Undisturbed(t: Tunnel, t': Tunnel, b: Addr) {
    && t'.state == t.state && t'.client == t.client
    && b in t.list.peers && b in t'.list.peers && t'.list.peers[b] == t.list.peers[b]
  }

  lemma UnrelatedStep(env: Env, t: Tunnel, e: RelayRuns.Event, b: Addr)
    requires AllReady(t) && Timely(t, e) && Unrelated(e, b) && b in t.list.peers
    ensures Undisturbed(t, RelayRuns.Step(env, t, e).0, b)
  {
    hide AllReady, Transmit, ReceiveFrom, ReplyBubble, BubbleOrigin;
    match e
    case Tx(io, data) =>
      TxOnlyAt(env, t, io, data);
    case Rx(io, p) =>
      if WellFormed(p.ip6) && (if t.client then t.state.up else Src(p.ip6).prefix == t.state.addr.prefix) {
        RxOnlyAt(env, t, io, p);
      }
  }

  /** Any amount of unrelated traffic. */
  ghost predicate Meanwhile(env: Env, ts: seq<Tunnel>, es: seq<RelayRuns.Event>, b: Addr) {
    && |ts| == |es| + 1
    && forall i :: 0 <= i < |es| ==>
         && Timely(ts[i], es[i]) && Unrelated(es[i], b)
         && (AllReady(ts[i]) ==> ts[i + 1] == RelayRuns.Step(env, ts[i], es[i]).0)
  }

  lemma {:induction false} MeanwhileKeeps(env: Env, seen: set<Reception>, ts: seq<Tunnel>, es: seq<RelayRuns.Event>,
                                          b: Addr, n: nat) returns (seen': set<Reception>)
    requires Meanwhile(env, ts, es, b) && Inv(env, seen, ts[0]) && b in ts[0].list.peers && n <= |es|
    ensures Inv(env, seen', ts[n]) && Undisturbed(ts[0], ts[n], b)
    decreases n
  {
    hide Inv, RelayRuns.Step, Unrelated, AllReady;
    seen' := seen;
    if n > 0 {
      var i := n - 1;
      seen' := MeanwhileKeeps(env, seen, ts, es, b, i);
      StepKeeps(env, seen', ts[i], es[i]);
      UnrelatedStep(env, ts[i], es[i], b);
      assert ts[i + 1] == RelayRuns.Step(env, ts[i], es[i]).0;
      seen' := if es[i].Rx? then seen' + {Noted(ts[i], es[i].io, es[i].packet)} else seen';
    }
  }

  /** Meanwhile no payload goes to B: it is not trusted yet. */
  lemma NothingForB(env: Env, seen: set<Reception>, ts: seq<Tunnel>, es: seq<RelayRuns.Event>, b: Addr, i: nat)
    requires Meanwhile(env, ts, es, b) && Inv(env, seen, ts[0]) && i < |es|
    requires b in ts[0].list.peers && ts[0].list.peers[b].trusted == Set(false)
    ensures AllReady(ts[i])
    ensures forall o :: o in RelayRuns.Step(env, ts[i], es[i]).1 && o.Send? && o.purpose == Payload ==>
              |o.data| >= 40 && Dst(o.data) != b
  {
    hide Inv, RelayRuns.Step, Unrelated, AllReady;
    var seen' := MeanwhileKeeps(env, seen, ts, es, b, i);
    StepKeeps(env, seen', ts[i], es[i]);
    UnrelatedStep(env, ts[i], es[i], b);
    var (t', outs) := RelayRuns.Step(env, ts[i], es[i]);
    forall o | o in outs && o.Send? && o.purpose == Payload
      ensures |o.data| >= 40 && Dst(o.data) != b
    {
      assert OutOk(t', o);
    }
  }

  // ---- The whole exchange ----

  /** How B's mapping, server and address fit together with the server and with A's observed source. */
  predicate Reachable(s: Server.Config, b: Addr, a: Endpoint) {
    && s.mtu <= 65535 && s.ip == b.server && s.prefix == b.prefix
    && IsGlobalAddr(b) && IsGlobalUnicast(ClientMapping(b).ip) && IsGlobalUnicast(a.ip)
    && !((a.ip == s.ip || a.ip == s.ip2) && a.port == TEREDO_PORT)
  }

  /** Hole punching completes.  A transmits to an unlisted client B; the server that B's address names forwards
      A's indirect bubble; B answers; the answer reaches A from `from`, which need not be the mapping that B's
      address advertises; meanwhile A talks to anyone else.  Then A, which sent no payload at first and none to B
      meanwhile, sends the packet to `from`, once, and trusts B there. */
  lemma HolePunchCompletes(
      envA: Env, seen: set<Reception>, tA: Tunnel, io1: Io, packet: Bytes, s: Server.Config, a: Endpoint, stale: Nonce8,
      envB: Env, tB: Tunnel, io2: Io, destB: W32,
      ts: seq<Tunnel>, es: seq<RelayRuns.Event>, io3: Io, from: Endpoint, destA: W32)
    requires var b := tB.state.addr;
             && Inv(envA, seen, tA) && MayConnect(tA, b) && FirstContact(tA, io1, b, packet)
             && Reachable(s, b, a)
             && AllReady(tB) && tB.client && tB.state.up && tB.clock <= io2.now
    requires AllReady(tA) && Meanwhile(envA, ts, es, tB.state.addr)
    requires ts[0] == Transmit(envA, tA, io1, packet).tunnel && ts[|es|].clock <= io3.now
    requires tA.client ==> from != Endpoint(tA.state.addr.server, TEREDO_PORT)
    ensures var b := tB.state.addr;
            var r1 := Transmit(envA, tA, io1, packet);
            && r1.outs == (if IsCone(tA.state.addr) then [] else [Send(Control, ClientMapping(b), Probe(envA, b))])
                          + [Send(Control, Endpoint(s.ip, TEREDO_PORT), Probe(envA, b))]
            && Decode(Probe(envA, b)) == Some(Frame(None, NOWHERE, Probe(envA, b)))
    ensures var b := tB.state.addr;
            var relayed := OriginHeader(a) + Probe(envA, b);
            && Server.Process(s, Packet(Probe(envA, b), a, s.ip, NOWHERE, None), false, stale)
               == Server.Forward(ClientMapping(b), relayed)
            && Decode(relayed) == Some(Frame(None, a, Probe(envA, b)))
            && Receive(envB, tB, io2, Packet(Probe(envA, b), Endpoint(s.ip, TEREDO_PORT), destB, a, None))
               == Result(tB, [Send(Control, a, Answer(envA, b))], true)
            && Decode(Answer(envA, b)) == Some(Frame(None, NOWHERE, Answer(envA, b)))
    ensures forall i :: 0 <= i < |es| ==>
              && AllReady(ts[i])
              && forall o :: o in RelayRuns.Step(envA, ts[i], es[i]).1 && o.Send? && o.purpose == Payload ==>
                   |o.data| >= 40 && Dst(o.data) != tB.state.addr
    ensures AllReady(ts[|es|])
    ensures var b := tB.state.addr;
            var r3 := Receive(envA, ts[|es|], io3, Packet(Answer(envA, b), from, destA, NOWHERE, None));
            && r3.outs == [Send(Payload, from, packet)]
            && b in r3.tunnel.list.peers
            && var p := r3.tunnel.list.peers[b];
            p.trusted == Set(true) && p.mapping == Set(from) && p.queue == []
  {
    hide Inv, Transmit, Receive, Probe, Answer, OriginHeader, AllReady, Decode, Waiting, Emit, Server.Process,
      RelayRuns.Step, Unrelated, Timely, IsGlobalAddr, IsGlobalUnicast, IsMulticast, IsControl;
    var b, n := tB.state.addr, |es|;
    Opens(envA, tA, io1, b, packet);
    Relayed(s, envA, b, a, stale);
    assert IsGlobalUnicast(a.ip) && Endpoint(s.ip, TEREDO_PORT) == Endpoint(b.server, TEREDO_PORT);
    Replies(envB, envA, tB, io2, a, destB);
    Remembered(envA, seen, tA, io1, b, packet, ts, es);
    SilentMeanwhile(envA, seen, tA, io1, b, packet, ts, es);
    NotLinkLocal(b);
    Completes(envA, ts[n], io3, b, from, destA);
    OnePacket(packet, from);
  }

  lemma Somewhere(e: Endpoint)
    requires IsGlobalUnicast(e.ip)
    ensures e != NOWHERE
  {
  }

  lemma NotLinkLocal(b: Addr)
    requires IsGlobalAddr(b)
    ensures !IsLinkLocal(b)
  {
  }

  /** The bubbles survive their encapsulation, and the server passes the first one on. */
  lemma Relayed(s: Server.Config, env: Env, b: Addr, a: Endpoint, stale: Nonce8)
    requires Reachable(s, b, a)
    ensures Decode(Probe(env, b)) == Some(Frame(None, NOWHERE, Probe(env, b)))
    ensures Decode(Answer(env, b)) == Some(Frame(None, NOWHERE, Answer(env, b)))
    ensures Decode(OriginHeader(a) + Probe(env, b)) == Some(Frame(None, a, Probe(env, b)))
    ensures Server.Process(s, Packet(Probe(env, b), a, s.ip, NOWHERE, None), false, stale)
         == Server.Forward(ClientMapping(b), OriginHeader(a) + Probe(env, b))
  {
    hide Probe, Answer, OriginHeader, Decode, Server.Process, IsGlobalAddr, IsGlobalUnicast;
    assert [] + Probe(env, b) == Probe(env, b) && [] + Answer(env, b) == Answer(env, b);
    BubbleDecodes(Probe(env, b), NOWHERE);
    BubbleDecodes(Answer(env, b), NOWHERE);
    Somewhere(a);
    BubbleDecodes(Probe(env, b), a);
    Forwards(s, env, b, a, stale);
  }

  /** After any unrelated traffic A still holds the packet for B. */
  lemma Remembered(env: Env, seen: set<Reception>, t: Tunnel, io: Io, b: Addr, packet: Bytes, ts: seq<Tunnel>,
                   es: seq<RelayRuns.Event>)
    requires Inv(env, seen, t) && AllReady(t) && MayConnect(t, b) && FirstContact(t, io, b, packet)
    requires Meanwhile(env, ts, es, b) && ts[0] == Transmit(env, t, io, packet).tunnel
    ensures var t' := ts[|es|];
            && AllReady(t') && t'.state == t.state && t'.client == t.client
            && b in t'.list.peers && t'.list.peers[b].trusted == Set(false)
            && t'.list.peers[b].queue == [Item(packet, NOWHERE, false)]
  {
    hide Inv, Transmit, Probe, AllReady, Waiting, MayConnect, IsControl;
    Opens(env, t, io, b, packet);
    TransmitKeeps(env, seen, t, io, packet);
    var seen' := MeanwhileKeeps(env, seen, ts, es, b, |es|);
    InvReady(env, seen', ts[|es|]);
  }

  lemma SilentMeanwhile(env: Env, seen: set<Reception>, t: Tunnel, io: Io, b: Addr, packet: Bytes, ts: seq<Tunnel>,
                        es: seq<RelayRuns.Event>)
    requires Inv(env, seen, t) && AllReady(t) && MayConnect(t, b) && FirstContact(t, io, b, packet)
    requires Meanwhile(env, ts, es, b) && ts[0] == Transmit(env, t, io, packet).tunnel
    ensures forall i :: 0 <= i < |es| ==>
              && AllReady(ts[i])
              && forall o :: o in RelayRuns.Step(env, ts[i], es[i]).1 && o.Send? && o.purpose == Payload ==>
                   |o.data| >= 40 && Dst(o.data) != b
  {
    hide Inv, Transmit, Probe, AllReady, Waiting, MayConnect, IsControl, RelayRuns.Step, Unrelated, Timely;
    Opens(env, t, io, b, packet);
    TransmitKeeps(env, seen, t, io, packet);
    forall i | 0 <= i < |es|
      ensures AllReady(ts[i])
      ensures forall o :: o in RelayRuns.Step(env, ts[i], es[i]).1 && o.Send? && o.purpose == Payload ==>
                |o.data| >= 40 && Dst(o.data) != b
    {
      NothingForB(env, seen, ts, es, b, i);
    }
  }

  lemma OnePacket(packet: Bytes, from: Endpoint)
    ensures Emit([Item(packet, NOWHERE, false)], from) == [Send(Payload, from, packet)]
  {
    var i := Item(packet, NOWHERE, false);
    assert [i][1..] == [];
    assert Emit([i], from) == Emission(i, from) + Emit([], from);
  }

  // ---- An instance ----

  const SERVER := Server.Config(W32(8, 8, 8, 8), W32(8, 8, 8, 9), TEREDO_PREFIX, 1280)
  const CLIENT := WithClient(Addr(TEREDO_PREFIX, W32(8, 8, 8, 8), ZERO16, ZERO16, ZERO32),
                             Endpoint(W32(1, 2, 3, 4), W16(4, 0)))

  function Qualified(): Tunnel {
    Tunnel(Empty(MAX_PEERS), true, None, None, Relay.State(CLIENT, ZERO32, 1280, true), Limiter(1, 0), 0)
  }

  lemma Setup(env: Env, self: Endpoint, packet: Bytes, io: Io) returns (tA: Tunnel, a: Endpoint)
    requires 40 <= |packet| <= MAX_QUEUE && Dst(packet) == CLIENT && io.memory && io.first && io.second
    ensures Inv(env, {}, tA) && AllReady(tA) && MayConnect(tA, CLIENT) && FirstContact(tA, io, CLIENT, packet)
    ensures !tA.client && Reachable(SERVER, CLIENT, a)
    ensures AllReady(Qualified()) && Qualified().clock <= io.now
  {
    tA, a := Create(self, 0), Endpoint(W32(5, 6, 7, 8), W16(9, 9));
    assert ClientMapping(CLIENT) == Endpoint(W32(1, 2, 3, 4), W16(4, 0));
  }

  /** The assumptions of the theorem can be met, the empty interval between the two steps included: a relay, just
      created, reaches a qualified client at once. */
  lemma AssumptionsCanBeMet(env: Env, self: Endpoint, packet: Bytes, io: Io)
      returns (tA: Tunnel, a: Endpoint, t1: Tunnel)
    requires 40 <= |packet| <= MAX_QUEUE && Dst(packet) == CLIENT && io.memory && io.first && io.second
    ensures Inv(env, {}, tA) && AllReady(tA) && MayConnect(tA, CLIENT) && FirstContact(tA, io, CLIENT, packet)
    ensures !tA.client && Reachable(SERVER, CLIENT, a)
    ensures AllReady(Qualified()) && Qualified().clock <= io.now
    ensures t1 == Transmit(env, tA, io, packet).tunnel && Meanwhile(env, [t1], [], CLIENT) && t1.clock <= io.now
  {
    hide Transmit, Inv, AllReady, MayConnect, Meanwhile, Reachable, Qualified;
    tA, a := Setup(env, self, packet, io);
    AtOnce(env, tA, io, CLIENT, packet);
    t1 := Transmit(env, tA, io, packet).tunnel;
  }

  lemma AtOnce(env: Env, t: Tunnel, io: Io, b: Addr, packet: Bytes)
    requires AllReady(t) && MayConnect(t, b) && FirstContact(t, io, b, packet)
    ensures var t1 := Transmit(env, t, io, packet).tunnel;
            Meanwhile(env, [t1], [], b) && t1.clock <= io.now
  {
    hide Transmit, AllReady, Probe, Waiting;
    Opens(env, t, io, b, packet);
  }
}
