/** The Teredo server's handling of one datagram (server.c, section 5.3.1 of RFC 4380). */
module Server {
  import opened Net
  import opened Codec
  import opened Packets
  import opened Advert

  /** The configured part of `teredo_server`; the MTU is what `teredo_server_set_MTU` admits. */
  datatype Config = Config(ip: W32, ip2: W32, prefix: W32, mtu: nat)

  predicate ValidConfig(host: ByteOrder, s: Config) {
    && IsGlobalUnicast(s.ip) && IsGlobalUnicast(s.ip2)
    && IsValidPrefix(host, s.prefix)
    && 1280 <= s.mtu <= 65535
  }

  /** The server's link-local address. */
  function LinkLocal(s: Config): (a: Addr)
    ensures IsLinkLocal(a)
  {
    Addr(W32(0xfe, 0x80, 0, 0), ZERO32, W16(0x80, 0), Not16(TEREDO_PORT), Not32(s.ip))
  }

  datatype Action =
    | Discard
    | Failed                                             // nothing sent: the client IPv4 address is not global
    | Reply(secondary: bool, to: Endpoint, data: Bytes)  // advertisement
    | ToIpv6(data: Bytes)                                // direct connectivity check
    | Forward(to: Endpoint, data: Bytes)                 // hole punching

  // ---- Router advertisement ----

  function PrefixOption(s: Config): (o: Bytes)
    ensures |o| == 32
  {
    [OPT_PREFIX, 4, 64, 0x40, 255, 255, 255, 255, 255, 255, 255, 255, 0, 0, 0, 0]
    + Bytes32(s.prefix) + Bytes32(s.ip) + [0, 0, 0, 0, 0, 0, 0, 0]
  }

  function MtuOption(s: Config): (o: Bytes)
    requires s.mtu <= 65535
    ensures |o| == 8
  {
    [OPT_MTU, 1, 0, 0] + Bytes32(ToW32(s.mtu))
  }

  /** Lifetimes, flags and hop limit zero, retransmission timer 2000, then the two options. */
  function AdvertBody(s: Config): (b: Bytes)
    requires s.mtu <= 65535
    ensures |b| == 52
  {
    [0, 0, 0, 0, 0, 0, 0, 0, 0, 0, 7, 0xd0] + PrefixOption(s) + MtuOption(s)
  }

  function AdvertPacket(s: Config, dst: Addr): (p: Bytes)
    requires s.mtu <= 65535
    ensures |p| == 96
  {
    Header(56, ICMPV6, 255, LinkLocal(s), dst) + Icmp6(LinkLocal(s), dst, 134, AdvertBody(s))
  }

  /** `SendRA`.  The nonce field of the reply is copied even if the request had no authentication header,
      in which case it is whatever the receive buffer held: `stale`. */
  function SendRa(s: Config, p: Packet, sec: bool, stale: Nonce8): Action
    requires s.mtu <= 65535 && |p.ip6| >= 40 && (p.auth.Some? ==> |p.auth.value.nonce| == 8)
  {
    var nonce := if p.auth.Some? then p.auth.value.nonce else stale;
    var dst := Src(p.ip6);
    Reply(if IsCone(dst) then !sec else sec, p.source,
          AuthHeader(nonce) + (OriginHeader(p.source) + AdvertPacket(s, dst)))
  }

  /** `teredo_forward_udp` */
  function ForwardUdp(p: Packet, insertOrigin: bool): Action
    requires |p.ip6| >= 40
  {
    var to := ClientMapping(Dst(p.ip6));
    if !IsGlobalUnicast(to.ip) then Failed
    else Forward(to, (if insertOrigin then OriginHeader(p.source) else []) + p.ip6)
  }

  // ---- The decision ----

  predicate IsSolicitation(ip6: Bytes)
    requires WellFormed(ip6)
  {
    NextHeader(ip6) == ICMPV6 && PayloadLength(ip6) >= 8 && ip6[40] == 133
  }

  /** Cases 4 to 6: which sources may use the server. */
  predicate Accepted(s: Config, p: Packet)
    requires WellFormed(p.ip6)
  {
    var src, dst := Src(p.ip6), Dst(p.ip6);
    || (IsLinkLocal(src) && dst == ALL_ROUTERS && IsSolicitation(p.ip6))
    || if src.prefix == s.prefix then MatchesClient(src, p.source)
       else dst.prefix == s.prefix && dst.server == s.ip
  }

  function Process(s: Config, p: Packet, sec: bool, stale: Nonce8): Action
    requires s.mtu <= 65535 && (p.auth.Some? ==> |p.auth.value.nonce| == 8)
  {
    if !WellFormed(p.ip6) then Discard
    else if !IsBubble(p.ip6) && NextHeader(p.ip6) != ICMPV6 then Discard
    else if !IsGlobalUnicast(p.source.ip) then Discard
    else if !Accepted(s, p) then Discard
    else if (p.source.ip == s.ip || p.source.ip == s.ip2) && p.source.port == TEREDO_PORT then Discard
    else
      var dst, plen := Dst(p.ip6), PayloadLength(p.ip6);
      if dst == ALL_ROUTERS || dst == LinkLocal(s) then
        if IsSolicitation(p.ip6) then SendRa(s, p, sec, stale) else Discard
      else if !IsGlobalAddr(dst) then Discard
      else if NextHeader(p.ip6) != NO_NEXT_HEADER && plen > 88 then Discard
      else if dst.prefix != s.prefix then ToIpv6(p.ip6[..40 + plen])
      else ForwardUdp(p, dst.server == s.ip)
  }

  // ---- What the server forwards ----

  /** One of the server's own sockets. */
  predicate IsOwn(s: Config, e: Endpoint) {
    e.port == TEREDO_PORT && (e.ip == s.ip || e.ip == s.ip2)
  }

  /** Who may send what to whom through the server: bubbles and short ICMPv6 messages, from a global source that
      owns its Teredo address or writes to one of the server's clients, to a Teredo client. */
  predicate IsRelayed(s: Config, p: Packet) {
    && WellFormed(p.ip6)
    && var src, dst := Src(p.ip6), Dst(p.ip6);
    && (IsBubble(p.ip6) || (NextHeader(p.ip6) == ICMPV6 && PayloadLength(p.ip6) <= 88))
    && IsGlobalUnicast(p.source.ip) && !IsOwn(s, p.source)
    && (if src.prefix == s.prefix then MatchesClient(src, p.source) else dst.server == s.ip)
    && IsGlobalAddr(dst) && dst.prefix == s.prefix
  }

  /** Its mapping must be global as well. */
  predicate MayForward(s: Config, p: Packet) {
    IsRelayed(s, p) && IsGlobalUnicast(ClientMapping(Dst(p.ip6)).ip)
  }

  /** A packet is forwarded if and only if it may be, to the mapping in its destination; the receiver decodes the
      packet as it arrived and, if it is the server's own client, the sender's endpoint. */
  lemma ForwardingExact(s: Config, p: Packet, sec: bool, stale: Nonce8)
    requires s.mtu <= 65535 && (p.auth.Some? ==> |p.auth.value.nonce| == 8)
    ensures Process(s, p, sec, stale).Forward? <==> MayForward(s, p)
    ensures MayForward(s, p) ==>
      var r := Process(s, p, sec, stale);
      && r.to == ClientMapping(Dst(p.ip6))
      && Decode(r.data) == Some(Frame(None, if Dst(p.ip6).server == s.ip then p.source else NOWHERE, p.ip6))
  {
    hide Decode, Encode, OriginHeader, SendRa, IsSolicitation, LinkLocal;
    WhenForwarded(s, p, sec, stale);
    if MayForward(s, p) {
      Framed(p, Dst(p.ip6).server == s.ip);
    }
  }

  lemma WhenForwarded(s: Config, p: Packet, sec: bool, stale: Nonce8)
    requires s.mtu <= 65535 && (p.auth.Some? ==> |p.auth.value.nonce| == 8)
    ensures Process(s, p, sec, stale).Forward? <==> MayForward(s, p)
    ensures MayForward(s, p) ==> Process(s, p, sec, stale) == ForwardUdp(p, Dst(p.ip6).server == s.ip)
  {
    hide OriginHeader, AdvertPacket, AuthHeader;
  }

  lemma Framed(p: Packet, own: bool)
    requires WellFormed(p.ip6) && IsGlobalUnicast(p.source.ip)
    ensures Decode((if own then OriginHeader(p.source) else []) + p.ip6)
         == Some(Frame(None, if own then p.source else NOWHERE, p.ip6))
  {
    hide Decode, OriginHeader;
    var f := Frame(None, if own then p.source else NOWHERE, p.ip6);
    RoundTrip(f);
    assert p.source != NOWHERE;
    assert Encode(f) == (if own then OriginHeader(p.source) else []) + p.ip6;
  }

  // ---- What else the server does ----

  /** Who may test a native node through the server: the owner of a Teredo address with this prefix, from a global
      source, with a bubble or a short ICMPv6 message, towards a global address outside the prefix. */
  predicate MayTest(s: Config, p: Packet) {
    && WellFormed(p.ip6)
    && var src, dst := Src(p.ip6), Dst(p.ip6);
    && (IsBubble(p.ip6) || (NextHeader(p.ip6) == ICMPV6 && PayloadLength(p.ip6) <= 88))
    && IsGlobalUnicast(p.source.ip) && !IsOwn(s, p.source)
    && src.prefix == s.prefix && MatchesClient(src, p.source)
    && IsGlobalAddr(dst) && dst.prefix != s.prefix
  }

  /** Who gets an advertisement: a solicitation to all routers or to the server, from a global source that uses a
      link-local address or owns its Teredo address. */
  predicate MaySolicit(s: Config, p: Packet) {
    && WellFormed(p.ip6) && IsSolicitation(p.ip6)
    && var src, dst := Src(p.ip6), Dst(p.ip6);
    && IsGlobalUnicast(p.source.ip) && !IsOwn(s, p.source)
    && ((IsLinkLocal(src) && dst == ALL_ROUTERS)
        || (src.prefix == s.prefix && MatchesClient(src, p.source) && (dst == ALL_ROUTERS || dst == LinkLocal(s))))
  }

  /** A packet enters the IPv6 Internet if and only if it may, cut at the length that it announces; an advertisement is
      sent if and only if one may be had, to the very source, from the other socket if the source claims a cone NAT;
      a packet with a mapping that is not global fails; everything else that is not forwarded is discarded. */
  lemma DecisionExact(s: Config, p: Packet, sec: bool, stale: Nonce8)
    requires s.mtu <= 65535 && (p.auth.Some? ==> |p.auth.value.nonce| == 8)
    ensures var r := Process(s, p, sec, stale);
            && (r.ToIpv6? <==> MayTest(s, p))
            && (r.ToIpv6? ==> r.data == p.ip6[..40 + PayloadLength(p.ip6)])
            && (IsGlobalUnicast(s.ip) ==> (r.Reply? <==> MaySolicit(s, p)))
            && (r.Reply? ==> r.to == p.source && r.secondary == (IsCone(Src(p.ip6)) != sec))
            && (r.Failed? <==> IsRelayed(s, p) && !IsGlobalUnicast(ClientMapping(Dst(p.ip6)).ip))
  {
    hide OriginHeader, AdvertPacket, AuthHeader, PayloadLength, IsGlobalAddr, IsBubble;
    if IsGlobalUnicast(s.ip) {
      Apart(s);
    }
    if WellFormed(p.ip6) {
      BubbleIsEmpty(p.ip6);
      GroupsAreNotGlobal(s);
    }
  }

  /** Neither address that solicitations go to names this server. */
  lemma Apart(s: Config)
    requires IsGlobalUnicast(s.ip)
    ensures ALL_ROUTERS.server != s.ip && LinkLocal(s).server != s.ip
  {
  }

  lemma GroupsAreNotGlobal(s: Config)
    ensures !IsGlobalAddr(ALL_ROUTERS) && !IsGlobalAddr(LinkLocal(s))
  {
  }

  lemma BubbleIsEmpty(ip6: Bytes)
    requires WellFormed(ip6)
    ensures IsBubble(ip6) ==> NextHeader(ip6) == NO_NEXT_HEADER && PayloadLength(ip6) == 0
  {
  }

  /** The source bounds the payload length in the header, not what it sends: the datagram has the size that the
      header announces exactly if nothing follows the packet. */
  lemma ForwardedSize(s: Config, p: Packet, sec: bool, stale: Nonce8)
    requires s.mtu <= 65535 && (p.auth.Some? ==> |p.auth.value.nonce| == 8) && MayForward(s, p)
    ensures var r := Process(s, p, sec, stale);
            var headers := if Dst(p.ip6).server == s.ip then 48 else 40;
            && r.Forward? && PayloadLength(p.ip6) <= 88
            && (|r.data| == headers + PayloadLength(p.ip6) <==> |p.ip6| == 40 + PayloadLength(p.ip6))
            && |r.data| >= headers + PayloadLength(p.ip6)
  {
    hide OriginHeader, Process;
    WhenForwarded(s, p, sec, stale);
  }

  /** Whatever follows a bubble is forwarded with it. */
  lemma TrailingBytesForwarded(junk: Bytes, sec: bool, stale: Nonce8)
    ensures var s := Config(W32(8, 8, 8, 8), W32(8, 8, 8, 9), TEREDO_PREFIX, 1280);
            var a := Endpoint(W32(5, 6, 7, 8), W16(9, 9));
            var src := Addr(W32(0x20, 0x02, 0, 0), ZERO32, ZERO16, ZERO16, ZERO32);
            var dst := WithClient(Addr(TEREDO_PREFIX, s.ip, ZERO16, ZERO16, ZERO32), Endpoint(W32(1, 2, 3, 4), W16(4, 0)));
            Process(s, Packet(Bubble(src, dst) + junk, a, s.ip, NOWHERE, None), sec, stale)
            == Forward(ClientMapping(dst), OriginHeader(a) + (Bubble(src, dst) + junk))
  {
    hide OriginHeader, Process, Bubble;
    var s := Config(W32(8, 8, 8, 8), W32(8, 8, 8, 9), TEREDO_PREFIX, 1280);
    var a := Endpoint(W32(5, 6, 7, 8), W16(9, 9));
    var src := Addr(W32(0x20, 0x02, 0, 0), ZERO32, ZERO16, ZERO16, ZERO32);
    var dst := WithClient(Addr(TEREDO_PREFIX, s.ip, ZERO16, ZERO16, ZERO32), Endpoint(W32(1, 2, 3, 4), W16(4, 0)));
    assert ClientMapping(dst) == Endpoint(W32(1, 2, 3, 4), W16(4, 0));
    HeaderOf(Bubble(src, dst), junk);
    var p := Packet(Bubble(src, dst) + junk, a, s.ip, NOWHERE, None);
    assert MayForward(s, p);
    WhenForwarded(s, p, sec, stale);
  }
}
