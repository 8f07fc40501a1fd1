/** Packets that libteredo builds and checks (packets.c), on their bytes. */
module Packets {
  import opened Net
  import opened Codec
  import Checksum

  /** `struct teredo_packet` after a successful receive. */
  datatype Packet = Packet(ip6: Bytes, source: Endpoint, dest: W32, orig: Endpoint, auth: Option<Auth>)

  function Arrived(f: Frame, source: Endpoint, dest: W32): Packet {
    Packet(f.ip6, source, dest, f.orig, f.auth)
  }

  type Nonce8 = s: Bytes | |s| == 8 witness [0, 0, 0, 0, 0, 0, 0, 0]
  type Hash22 = s: Bytes | |s| == 22 witness seq(22, _ => 0)

  /** The keyed hashes a tunnel uses; `wall` is the time of day in seconds. */
  datatype Env = Env(
    nonce: Endpoint -> Nonce8,
    pingHash: (nat, Addr, Addr) -> Hash22,
    verify: (nat, Addr, Addr, Hash22) -> bool)

  // ---- ICMPv6 ----

  /** The two checksum bytes of an ICMPv6 message whose checksum field is zero. */
  function Icmp6Checksum(src: Addr, dst: Addr, icmp: Bytes): (c: Bytes)
    requires |icmp| < 0x10000
    ensures |c| == 2
  {
    Checksum.Store(BigEndian, Checksum.Inet(BigEndian, Checksum.Pseudo(AddrBytes(src), AddrBytes(dst), ICMPV6, icmp)))
  }

  /** An ICMPv6 message: type, code, checksum and body. */
  function Icmp6(src: Addr, dst: Addr, kind: byte, body: Bytes): (m: Bytes)
    requires |body| < 0xfffc
    ensures |m| == 4 + |body| && m[0] == kind && m[1] == 0 && m[4..] == body
  {
    [kind, 0] + Icmp6Checksum(src, dst, [kind, 0, 0, 0] + body) + body
  }

  /** Whoever recomputes the checksum over such a message, pseudo-header included, finds zero. */
  lemma Icmp6Verifies(src: Addr, dst: Addr, kind: byte, body: Bytes)
    requires |body| < 0xfffc
    ensures Checksum.Inet(BigEndian,
              Checksum.Pseudo(AddrBytes(src), AddrBytes(dst), ICMPV6, Icmp6(src, dst, kind, body))) == 0
  {
    hide Checksum.Inet, Checksum.Store, ToW32, AddrBytes;
    var a, b, n := AddrBytes(src), AddrBytes(dst), 4 + |body|;
    var head := a + b + Bytes32(ToW32(n)) + [0, 0, 0, ICMPV6] + [kind, 0];
    var blank := [kind, 0, 0, 0] + body;
    assert |head| == 42;
    assert Checksum.Pseudo(a, b, ICMPV6, blank) == head + [0, 0] + body;
    var c := Icmp6Checksum(src, dst, blank);
    assert Checksum.Pseudo(a, b, ICMPV6, Icmp6(src, dst, kind, body)) == head + c + body;
    Checksum.ChecksumVerifies(BigEndian, head, body);
  }

  // ---- Bubbles ----

  /** The link-local source of a bubble to `dst`, whose interface identifier is a nonce for that peer's mapping. */
  function BubbleSource(env: Env, dst: Addr): (a: Addr)
    ensures IsLinkLocal(a) && !IsMulticast(a)
  {
    var h := env.nonce(ClientMapping(dst));
    Addr(W32(0xfe, 0x80, 0, 0), ZERO32, W16(h[0] - h[0] % 4, h[1]), W16(h[2], h[3]), Word32At(h, 4))
  }

  /** `CheckBubble`: the destination carries the nonce made for the source's advertised mapping. */
  predicate CheckBubble(env: Env, ip6: Bytes)
    requires |ip6| >= 40
  {
    var me, want := Dst(ip6), BubbleSource(env, Src(ip6));
    me.flags == want.flags && me.clientPort == want.clientPort && me.clientIp == want.clientIp
  }

  // ---- Errors ----

  /** How much of a packet an error quotes: what fits into 1280 bytes behind an IPv6 and an ICMPv6 header. */
  const QUOTE := 1232

  /** `BuildICMPv6Error`: empty for packets that must not be answered.  The type of an ICMPv6 message is the byte
      behind the header, `beyond` if the packet ends there. */
  function BuildError(code: byte, packet: Bytes, beyond: byte): (e: Bytes)
    ensures |e| <= 8 + QUOTE
  {
    if |packet| < 40 then []
    else if NextHeader(packet) == ICMPV6 && (if |packet| > 40 then packet[40] else beyond) < 128 then []
    else if IsMulticast(Dst(packet)) || IsMulticast(Src(packet)) then []
    else if Src(packet) == Addr(ZERO32, ZERO32, ZERO16, ZERO16, ZERO32) then []
    else [1, code, 0, 0, 0, 0, 0, 0] + packet[..if |packet| > QUOTE then QUOTE else |packet|]
  }

  /** An error is built exactly for packets that may be answered; it quotes the packet from its beginning, all of it
      if it fits, and with an IPv6 header it is never larger than the minimum MTU. */
  lemma ErrorQuotes(code: byte, packet: Bytes, beyond: byte)
    ensures BuildError(code, packet, beyond) != [] <==> Answerable(packet, beyond)
    ensures Answerable(packet, beyond) ==>
      var e := BuildError(code, packet, beyond);
      && 48 <= |e| && 40 + |e| <= 1280 && e[0] == 1 && e[1] == code
      && e[8..] <= packet && (e[8..] == packet <==> |packet| <= QUOTE)
  {
    if Answerable(packet, beyond) {
      var q := packet[..if |packet| > QUOTE then QUOTE else |packet|];
      assert ([1, code, 0, 0, 0, 0, 0, 0] + q)[8..] == q;
    }
  }

  /** What section 2.4 of RFC 4443 allows an error about: no ICMPv6 error, no multicast, a usable source. */
  predicate Answerable(packet: Bytes, beyond: byte) {
    && |packet| >= 40
    && (NextHeader(packet) == ICMPV6 ==> (if |packet| > 40 then packet[40] else beyond) >= 128)
    && !IsMulticast(Dst(packet)) && !IsMulticast(Src(packet))
    && Src(packet) != Addr(ZERO32, ZERO32, ZERO16, ZERO16, ZERO32)
  }

  // ---- Connectivity test ----

  const PING_LENGTH := 26                                // ICMPv6 header and eighteen bytes of payload

  /** `SendPing` */
  function Ping(env: Env, wall: nat, src: Addr, dst: Addr): (p: Bytes)
    ensures |p| == 66
  {
    Header(PING_LENGTH, ICMPV6, 128, src, dst) + Icmp6(src, dst, 128, env.pingHash(wall, src, dst))
  }

  lemma PingShape(env: Env, wall: nat, src: Addr, dst: Addr)
    ensures var p := Ping(env, wall, src, dst);
            && WellFormed(p) && Src(p) == src && Dst(p) == dst
            && NextHeader(p) == ICMPV6 && PayloadLength(p) == PING_LENGTH && p[40] == 128 && p[41] == 0
            && p[44..66] == env.pingHash(wall, src, dst)
  {
    hide Header, Icmp6;
    var h := Header(PING_LENGTH, ICMPV6, 128, src, dst);
    var m := Icmp6(src, dst, 128, env.pingHash(wall, src, dst));
    HeaderOf(h, m);
    var p := h + m;
    assert p[40] == m[0] && p[41] == m[1] && p[44..66] == m[4..];
  }

  /** `CheckPing`: an echo reply, or an unreachable error quoting our echo request, with a hash that verifies. */
  predicate CheckPing(env: Env, wall: nat, ip6: Bytes)
    requires WellFormed(ip6)
  {
    && NextHeader(ip6) == ICMPV6 && PayloadLength(ip6) >= PING_LENGTH
    && if ip6[40] == 1 then
         && PayloadLength(ip6) - 8 >= 40 + PING_LENGTH
         && var inner := ip6[48..];
         && NextHeader(inner) == ICMPV6 && PayloadLength(inner) == PING_LENGTH
         && Src(inner) == Dst(ip6) && inner[40] == 128
         && Dst(inner) == Src(ip6) && inner[41] == 0
         && env.verify(wall, Src(inner), Dst(inner), inner[44..66])
       else
         && ip6[40] == 129 && ip6[41] == 0
         && env.verify(wall, Dst(ip6), Src(ip6), ip6[44..66])
  }

  /** What a conforming node answers to an echo request: same identifier, sequence and payload. */
  function EchoReply(ping: Bytes, hops: byte): (r: Bytes)
    requires |ping| == 66 && WellFormed(ping)
    ensures |r| == 66 && WellFormed(r)
  {
    Header(PING_LENGTH, ICMPV6, hops, Dst(ping), Src(ping)) + Icmp6(Dst(ping), Src(ping), 129, ping[44..])
  }

  /** An unreachable error from the target itself, quoting the whole request. */
  function UnreachableReply(ping: Bytes, hops: byte, code: byte): (r: Bytes)
    requires |ping| == 66 && WellFormed(ping)
    ensures |r| == 114 && WellFormed(r)
  {
    var src, dst := Dst(ping), Src(ping);
    var body: Bytes := [0, 0, 0, 0] + ping;
    Header(74, ICMPV6, hops, src, dst) + ([1, code] + Icmp6Checksum(src, dst, [1, code, 0, 0] + body) + body)
  }

  /** Either answer to a ping passes the check exactly when the ping's own hash verifies then. */
  lemma AnswersAuthenticate(env: Env, sent: nat, now: nat, src: Addr, dst: Addr, hops: byte, code: byte)
    ensures WellFormed(Ping(env, sent, src, dst))
    ensures var ping := Ping(env, sent, src, dst);
            && (CheckPing(env, now, EchoReply(ping, hops))
                <==> env.verify(now, src, dst, env.pingHash(sent, src, dst)))
            && (CheckPing(env, now, UnreachableReply(ping, hops, code))
                <==> env.verify(now, src, dst, env.pingHash(sent, src, dst)))
  {
    hide Icmp6Checksum, Header, Ping, EchoReply, UnreachableReply, CheckPing;
    var ping := Ping(env, sent, src, dst);
    PingShape(env, sent, src, dst);
    EchoPasses(env, now, ping, hops);
    UnreachablePasses(env, now, ping, hops, code);
  }

  lemma EchoPasses(env: Env, now: nat, ping: Bytes, hops: byte)
    requires |ping| == 66 && WellFormed(ping)
    ensures CheckPing(env, now, EchoReply(ping, hops)) <==> env.verify(now, Src(ping), Dst(ping), ping[44..66])
  {
    hide Icmp6Checksum, Header;
    var h := Header(PING_LENGTH, ICMPV6, hops, Dst(ping), Src(ping));
    var m := Icmp6(Dst(ping), Src(ping), 129, ping[44..]);
    HeaderOf(h, m);
    var r := h + m;
    assert r[40] == m[0] && r[41] == m[1] && r[44..66] == m[4..] == ping[44..66];
  }

  lemma UnreachablePasses(env: Env, now: nat, ping: Bytes, hops: byte, code: byte)
    requires |ping| == 66 && WellFormed(ping) && NextHeader(ping) == ICMPV6 && PayloadLength(ping) == PING_LENGTH
    requires ping[40] == 128 && ping[41] == 0
    ensures CheckPing(env, now, UnreachableReply(ping, hops, code))
       <==> env.verify(now, Src(ping), Dst(ping), ping[44..66])
  {
    hide Icmp6Checksum, Header;
    var src, dst := Dst(ping), Src(ping);
    var body: Bytes := [0, 0, 0, 0] + ping;
    var h := Header(74, ICMPV6, hops, src, dst);
    var m := [1, code] + Icmp6Checksum(src, dst, [1, code, 0, 0] + body) + body;
    HeaderOf(h, m);
    var r := h + m;
    assert r[40] == m[0] && r[48..] == m[8..] == ping;
  }
}
