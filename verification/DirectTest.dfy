/** The direct IPv6 connectivity test (section 5.2.9 of RFC 4380) from a client's first packet to a native node up to
    its delivery, datagram by datagram. */
module DirectTest {
  import opened Net
  import opened Codec
  import opened Packets
  import opened Peers
  import opened PeerCache
  import opened Relay
  import opened RelayLaws
  import opened RelayRuns
  import opened OneEntry
  import opened Sending
  import opened Receiving
  import Security
  import Streaming
  import Probing
  import HolePunch
  import Server

  /** A qualified client and a native node. */
  predicate MayTest(t: Tunnel, n: Addr) {
    && t.client && t.state.up && !IsMulticast(t.state.addr)
    && n.prefix != t.state.addr.prefix && IsGlobalAddr(n)
  }

  /** The node unlisted, room for an entry, the test can be sent, the packet fits the queue. */
  predicate FirstContact(t: Tunnel, io: Io, n: Addr, packet: Bytes) {
    && n !in t.list.peers && t.list.left > 0 && io.memory && io.first && t.clock <= io.now
    && 40 <= |packet| <= MAX_QUEUE && Dst(packet) == n && Src(packet).prefix == t.state.addr.prefix
  }

  /** The server that gave the client its address, which sees the client at the mapping in that address. */
  predicate Serves(s: Server.Config, a: Addr) {
    && s.mtu <= 65535 && s.ip == a.server && s.prefix == a.prefix
    && IsGlobalUnicast(ClientMapping(a).ip) && !Server.IsOwn(s, ClientMapping(a))
  }

  // ---- The client tests ----

  lemma Tests(env: Env, t: Tunnel, io: Io, n: Addr, packet: Bytes)
    requires AllReady(t) && MayTest(t, n) && FirstContact(t, io, n, packet)
    ensures var r := Transmit(env, t, io, packet);
            && r.ok && r.tunnel.state == t.state && r.tunnel.client
            && r.outs == [Send(Control, Endpoint(t.state.addr.server, TEREDO_PORT), Ping(env, io.wall, t.state.addr, n))]
            && n in r.tunnel.list.peers && r.tunnel.list.peers[n].trusted == Set(false)
            && r.tunnel.list.peers[n].queue == [Item(packet, NOWHERE, false)]
  {
    hide Transmit, AllReady, Ping, Has, Hopeless;
    assert Admitted(t, packet) by { NotGroup(n); }
    ConnectExact(env, t, io, packet);
    WaitingExact(env, t, io, packet);
    ResultExact(env, t, io, packet);
    TxOnlyAt(env, t, io, packet);
  }

  lemma NotGroup(n: Addr)
    requires IsGlobalAddr(n)
    ensures !IsMulticast(n) && !IsLinkLocal(n)
  {
  }

  // ---- The server lets the test out ----

  lemma TestAdmitted(env: Env, wall: nat, s: Server.Config, a: Addr, n: Addr)
    requires Serves(s, a) && IsGlobalAddr(n) && n.prefix != a.prefix
    ensures var ping := Ping(env, wall, a, n);
            && WellFormed(ping) && PayloadLength(ping) == 26
            && Server.MayTest(s, Packet(ping, ClientMapping(a), s.ip, NOWHERE, None))
  {
    hide Ping, IsGlobalAddr, IsGlobalUnicast, Server.IsOwn, IsBubble, PayloadLength, NextHeader, Src, Dst, WellFormed,
      ClientMapping;
    PingShape(env, wall, a, n);
  }

  lemma TestLeaves(env: Env, wall: nat, s: Server.Config, a: Addr, n: Addr, stale: Nonce8)
    requires Serves(s, a) && IsGlobalAddr(n) && n.prefix != a.prefix
    ensures var ping := Ping(env, wall, a, n);
            && Decode(ping) == Some(Frame(None, NOWHERE, ping))
            && Server.Process(s, Packet(ping, ClientMapping(a), s.ip, NOWHERE, None), false, stale) == Server.ToIpv6(ping)
  {
    hide Ping, Decode, Server.Process, OriginHeader, Server.MayTest, Server.MaySolicit, Server.IsRelayed, IsGlobalAddr,
      IsGlobalUnicast, WellFormed, PayloadLength, Src, Dst, ClientMapping, Server.IsOwn;
    var ping := Ping(env, wall, a, n);
    TestAdmitted(env, wall, s, a, n);
    HolePunch.BubbleDecodes(ping, NOWHERE);
    assert [] + ping == ping;
    Server.DecisionExact(s, Packet(ping, ClientMapping(a), s.ip, NOWHERE, None), false, stale);
    assert ping[..66] == ping;
  }

  // ---- The answer ----

  /** The node's answer: an echo reply, or an error that quotes the request. */
  function Answer(ping: Bytes, echo: bool, hops: byte, code: byte): (r: Bytes)
    requires |ping| == 66 && WellFormed(ping)
    ensures WellFormed(r)
  {
    if echo then EchoReply(ping, hops) else UnreachableReply(ping, hops, code)
  }

  lemma AnswerShape(ping: Bytes, echo: bool, hops: byte, code: byte)
    requires |ping| == 66 && WellFormed(ping)
    ensures var r := Answer(ping, echo, hops, code);
            Src(r) == Dst(ping) && Dst(r) == Src(ping) && NextHeader(r) == ICMPV6
  {
    hide Header, Icmp6, Icmp6Checksum;
    var src, dst := Dst(ping), Src(ping);
    if echo {
      HeaderOf(Header(PING_LENGTH, ICMPV6, hops, src, dst), Icmp6(src, dst, 129, ping[44..]));
    } else {
      var body: Bytes := [0, 0, 0, 0] + ping;
      HeaderOf(Header(74, ICMPV6, hops, src, dst), [1, code] + Icmp6Checksum(src, dst, [1, code, 0, 0] + body) + body);
    }
  }

  /** What a client makes of an ICMPv6 packet of a listed node that it does not trust, from wherever it comes: if the
      packet passes as an answer, the node is trusted there and its queue flushed; otherwise it waits too. */
  lemma Decides(env: Env, t: Tunnel, io: Io, n: Addr, answer: Bytes, from: Endpoint, dest: W32)
    requires AllReady(t) && t.clock <= io.now && MayTest(t, n)
    requires n in t.list.peers && t.list.peers[n].trusted == Set(false)
    requires WellFormed(answer) && NextHeader(answer) == ICMPV6 && Src(answer) == n && Dst(answer) == t.state.addr
    ensures var p := Packet(answer, from, dest, NOWHERE, None);
            var r := Receive(env, t, io, p);
            && (TrustedAt(r.tunnel, n, from) <==> CheckPing(env, io.wall, answer))
            && (CheckPing(env, io.wall, answer) ==>
                  Welcomed(t, r.tunnel, io, p) && r.outs == Emit(t.list.peers[n].queue, from))
            && (!CheckPing(env, io.wall, answer) ==> Kept(t, r.tunnel, io, p) && !Has(r.outs, Payload))
  {
    hide Receive, AllReady, CheckPing, Ping, Welcomed, Kept, Emit, PingDue, Unicast, Answers, Plausible, Has, IsGlobalAddr,
      IsMulticast;
    var p := Packet(answer, from, dest, NOWHERE, None);
    Plain(t, n, answer, from, dest);
    TrustExact(env, t, io, p);
    var flushed := Emit(t.list.peers[n].queue, from);
    assert [] + (flushed + []) == flushed;
    if !CheckPing(env, io.wall, answer) {
      NativeExact(env, t, io, p);
      var ping := Send(Control, Endpoint(t.state.addr.server, TEREDO_PORT), Ping(env, io.wall, t.state.addr, n));
      SingleHas(ping);
      ReportsHave(t, io.now, answer);
      assert [] + [ping] == [ping];
    }
  }

  lemma Plain(t: Tunnel, n: Addr, answer: Bytes, from: Endpoint, dest: W32)
    requires MayTest(t, n)
    requires WellFormed(answer) && NextHeader(answer) == ICMPV6 && Src(answer) == n && Dst(answer) == t.state.addr
    ensures var p := Packet(answer, from, dest, NOWHERE, None);
            Unicast(t, p) && Answers(t, p) == [] && !IsBubble(answer)
  {
    hide IsLocal, IsGlobalUnicast, IsGlobalAddr, Bubble;
    NotGroup(n);
    ZeroIsNotGlobal();
  }

  // ---- The whole exchange ----

  /** The test completes.  A client transmits to an unlisted native node; the test goes to the client's server, which
      sends it on unchanged; the node answers; the answer reaches the client from `from`, whatever relay that is;
      meanwhile the client talks to anyone else.  The client then trusts the node at `from` if and only if fewer than
      thirty seconds passed, on a clock that wraps, and if so sends the waiting packet there, once; otherwise nothing
      is sent to the node. */
  lemma TestCompletes(
      secret: Security.Secret, host: ByteOrder, seen: set<Reception>, t: Tunnel, io1: Io, packet: Bytes,
      s: Server.Config, stale: Nonce8, n: Addr, ts: seq<Tunnel>, es: seq<RelayRuns.Event>, io3: Io,
      echo: bool, hops: byte, code: byte, from: Endpoint, dest: W32)
    requires var env := Probing.EnvOf(secret, host);
             && Inv(env, seen, t) && AllReady(t) && MayTest(t, n) && FirstContact(t, io1, n, packet)
             && Serves(s, t.state.addr) && HolePunch.Meanwhile(env, ts, es, n)
             && ts[0] == Transmit(env, t, io1, packet).tunnel && ts[|es|].clock <= io3.now
    ensures var env := Probing.EnvOf(secret, host);
            var a := t.state.addr;
            var ping := Ping(env, io1.wall, a, n);
            && Transmit(env, t, io1, packet).outs == [Send(Control, Endpoint(s.ip, TEREDO_PORT), ping)]
            && Decode(ping) == Some(Frame(None, NOWHERE, ping))
            && Server.Process(s, Packet(ping, ClientMapping(a), s.ip, NOWHERE, None), false, stale) == Server.ToIpv6(ping)
            && WellFormed(ping) && AllReady(ts[|es|])
            && var p := Packet(Answer(ping, echo, hops, code), from, dest, NOWHERE, None);
            && Decode(p.ip6) == Some(Frame(None, NOWHERE, p.ip6))
            && var r := Receive(env, ts[|es|], io3, p);
            if (io3.wall - io1.wall) % Streaming.TWO32 < 30 then
              TrustedAt(r.tunnel, n, from) && r.outs == [Send(Payload, from, packet)]
            else
              !TrustedAt(r.tunnel, n, from) && !Has(r.outs, Payload)
  {
    hide Inv, Transmit, Receive, AllReady, Decode, Server.Process, Ping, Answer, HolePunch.Meanwhile, IsGlobalAddr,
      IsGlobalUnicast, IsMulticast, Probing.EnvOf, Has, TrustedAt, Server.IsOwn;
    var env, a := Probing.EnvOf(secret, host), t.state.addr;
    var ping := Ping(env, io1.wall, a, n);
    Tests(env, t, io1, n, packet);
    TestLeaves(env, io1.wall, s, a, n, stale);
    PingShape(env, io1.wall, a, n);
    AnswerDecodes(ping, echo, hops, code);
    Remembered(env, seen, t, io1, n, packet, ts, es);
    Concludes(secret, host, ts[|es|], io1.wall, io3, packet, n, echo, hops, code, from, dest);
  }

  lemma AnswerDecodes(ping: Bytes, echo: bool, hops: byte, code: byte)
    requires |ping| == 66 && WellFormed(ping)
    ensures var r := Answer(ping, echo, hops, code);
            Decode(r) == Some(Frame(None, NOWHERE, r))
  {
    hide Answer, Decode, OriginHeader;
    var r := Answer(ping, echo, hops, code);
    HolePunch.BubbleDecodes(r, NOWHERE);
    assert [] + r == r;
  }

  /** The answer to a test sent at `sent`, reaching a client that holds a packet for the node. */
  lemma Concludes(secret: Security.Secret, host: ByteOrder, t: Tunnel, sent: nat, io: Io, packet: Bytes, n: Addr,
                  echo: bool, hops: byte, code: byte, from: Endpoint, dest: W32)
    requires AllReady(t) && t.clock <= io.now && MayTest(t, n)
    requires n in t.list.peers && t.list.peers[n].trusted == Set(false)
    requires t.list.peers[n].queue == [Item(packet, NOWHERE, false)]
    ensures var env := Probing.EnvOf(secret, host);
            var ping := Ping(env, sent, t.state.addr, n);
            && WellFormed(ping)
            && var r := Receive(env, t, io, Packet(Answer(ping, echo, hops, code), from, dest, NOWHERE, None));
            if (io.wall - sent) % Streaming.TWO32 < 30 then
              TrustedAt(r.tunnel, n, from) && r.outs == [Send(Payload, from, packet)]
            else
              !TrustedAt(r.tunnel, n, from) && !Has(r.outs, Payload)
  {
    hide Receive, AllReady, Ping, Answer, CheckPing, IsGlobalAddr, IsMulticast, Emit, Probing.EnvOf, Welcomed, Kept, Has,
      TrustedAt;
    var env, a := Probing.EnvOf(secret, host), t.state.addr;
    var ping := Ping(env, sent, a, n);
    PingShape(env, sent, a, n);
    AnswerShape(ping, echo, hops, code);
    Decides(env, t, io, n, Answer(ping, echo, hops, code), from, dest);
    Window(secret, host, sent, io.wall, a, n, echo, hops, code);
    HolePunch.OnePacket(packet, from);
  }

  lemma Window(secret: Security.Secret, host: ByteOrder, sent: nat, now: nat, a: Addr, n: Addr, echo: bool, hops: byte,
               code: byte)
    ensures var ping := Ping(Probing.EnvOf(secret, host), sent, a, n);
            && WellFormed(ping)
            && (CheckPing(Probing.EnvOf(secret, host), now, Answer(ping, echo, hops, code))
                <==> (now - sent) % Streaming.TWO32 < 30)
  {
    hide Ping, CheckPing, EchoReply, UnreachableReply, Probing.EnvOf;
    Probing.ProbeRoundTrip(secret, host, sent, now, a, n, hops, code);
  }

  /** After any unrelated traffic the client still holds the packet for the node. */
  lemma Remembered(env: Env, seen: set<Reception>, t: Tunnel, io: Io, n: Addr, packet: Bytes, ts: seq<Tunnel>,
                   es: seq<RelayRuns.Event>)
    requires Inv(env, seen, t) && AllReady(t) && MayTest(t, n) && FirstContact(t, io, n, packet)
    requires HolePunch.Meanwhile(env, ts, es, n) && ts[0] == Transmit(env, t, io, packet).tunnel
    ensures |ts| == |es| + 1
    ensures var t' := ts[|es|];
            && AllReady(t') && t'.state == t.state && t'.client == t.client
            && n in t'.list.peers && t'.list.peers[n].trusted == Set(false)
            && t'.list.peers[n].queue == [Item(packet, NOWHERE, false)]
  {
    hide Inv, Transmit, AllReady, Ping, IsGlobalAddr, IsMulticast;
    Tests(env, t, io, n, packet);
    TransmitKeeps(env, seen, t, io, packet);
    var seen' := HolePunch.MeanwhileKeeps(env, seen, ts, es, n, |es|);
    InvReady(env, seen', ts[|es|]);
  }

  // ---- An instance ----

  const NODE := Addr(W32(0x20, 0x02, 0, 0), ZERO32, ZERO16, ZERO16, ZERO32)

  /** The assumptions of the theorem can be met, with nothing in between. */
  lemma AssumptionsCanBeMet(env: Env, packet: Bytes, io: Io) returns (t1: Tunnel)
    requires 40 <= |packet| <= MAX_QUEUE && Dst(packet) == NODE && Src(packet).prefix == TEREDO_PREFIX
    requires io.memory && io.first
    ensures var t := HolePunch.Qualified();
            && Inv(env, {}, t) && AllReady(t) && MayTest(t, NODE) && FirstContact(t, io, NODE, packet)
            && Serves(HolePunch.SERVER, t.state.addr)
            && t1 == Transmit(env, t, io, packet).tunnel && HolePunch.Meanwhile(env, [t1], [], NODE) && t1.clock <= io.now
  {
    hide Transmit, HolePunch.Meanwhile, Inv, AllReady, HolePunch.Qualified, MayTest, FirstContact, Serves, Limit;
    var t := HolePunch.Qualified();
    Setup(env, packet, io);
    assert t.clock <= io.now by { StartsAtZero(); }
    t1 := Transmit(env, t, io, packet).tunnel;
    TransmitConsults(env, t, io, packet);
    AtOnce(env, t1);
  }

  lemma StartsAtZero()
    ensures HolePunch.Qualified().clock == 0
  {
  }

  lemma Setup(env: Env, packet: Bytes, io: Io)
    requires 40 <= |packet| <= MAX_QUEUE && Dst(packet) == NODE && Src(packet).prefix == TEREDO_PREFIX
    requires io.memory && io.first
    ensures var t := HolePunch.Qualified();
            && Inv(env, {}, t) && AllReady(t) && MayTest(t, NODE) && FirstContact(t, io, NODE, packet)
            && Serves(HolePunch.SERVER, t.state.addr)
  {
    assert ClientMapping(HolePunch.CLIENT) == Endpoint(W32(1, 2, 3, 4), W16(4, 0));
  }

  lemma AtOnce(env: Env, t: Tunnel)
    ensures HolePunch.Meanwhile(env, [t], [], NODE)
  {
  }
}
