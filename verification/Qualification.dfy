/** The qualification exchange of section 5.2.1 of RFC 4380, from the bytes the client sends
    to the address it derives from the bytes it gets back. */
module Qualification {
  import opened Net
  import opened Codec
  import opened Packets
  import opened Advert
  import opened Server
  import Checksum

  /** The sources the server answers: global ones, other than its own two sockets. */
  predicate Answered(s: Config, source: Endpoint) {
    && IsGlobalUnicast(source.ip)
    && !((source.ip == s.ip || source.ip == s.ip2) && source.port == TEREDO_PORT)
  }

  /** The solicitation as the server receives it. */
  function Solicited(nonce: Nonce8, source: Endpoint, dest: W32): Packet {
    Packet(SolicitPacket(), source, dest, NOWHERE, Some(Auth(nonce, false)))
  }

  lemma SolicitationDecodes(nonce: Nonce8, source: Endpoint, dest: W32)
    ensures Decode(Solicitation(nonce)) == Some(Frame(Some(Auth(nonce, false)), NOWHERE, SolicitPacket()))
  {
    hide SolicitPacket, AuthHeader;
    var f := Frame(Some(Auth(nonce, false)), NOWHERE, SolicitPacket());
    assert [] + f.ip6 == f.ip6;
    RoundTrip(f);
  }

  /** The server's answer, on the wire. */
  function Answer(s: Config, nonce: Nonce8, source: Endpoint): Bytes
    requires s.mtu <= 65535
  {
    AuthHeader(nonce) + (OriginHeader(source) + AdvertPacket(s, TEREDO_RESTRICT))
  }

  lemma ServerAnswers(s: Config, nonce: Nonce8, source: Endpoint, dest: W32, sec: bool, stale: Nonce8)
    requires s.mtu <= 65535
    ensures Process(s, Solicited(nonce, source, dest), sec, stale)
         == if Answered(s, source) then Reply(sec, source, Answer(s, nonce, source)) else Discard
  {
    hide SolicitPacket, AdvertPacket, AuthHeader, OriginHeader;
  }

  // ---- The advertisement, read back ----

  lemma AdvertShape(s: Config)
    requires s.mtu <= 65535
    ensures var p := AdvertPacket(s, TEREDO_RESTRICT);
            && WellFormed(p) && Dst(p) == TEREDO_RESTRICT && NextHeader(p) == ICMPV6 && PayloadLength(p) == 56
            && p[0] == 0x60 && p[40] == 134 && p[41] == 0
            && OptionsOf(p) == PrefixOption(s) + MtuOption(s)
  {
    hide Icmp6Checksum, PrefixOption, MtuOption, LinkLocal;
    var h, m := Header(56, ICMPV6, 255, LinkLocal(s), TEREDO_RESTRICT),
                Icmp6(LinkLocal(s), TEREDO_RESTRICT, 134, AdvertBody(s));
    HeaderOf(h, m);
    var p := h + m;
    assert p[40] == m[0] && p[41] == m[1];
    assert p[56..96] == m[4..][12..] == AdvertBody(s)[12..];
  }

  lemma AnswerDecodes(s: Config, nonce: Nonce8, source: Endpoint)
    requires s.mtu <= 65535 && source != NOWHERE
    ensures Decode(Answer(s, nonce, source))
         == Some(Frame(Some(Auth(nonce, false)), source, AdvertPacket(s, TEREDO_RESTRICT)))
  {
    hide AdvertPacket, AuthHeader, OriginHeader;
    AdvertShape(s);
    RoundTrip(Frame(Some(Auth(nonce, false)), source, AdvertPacket(s, TEREDO_RESTRICT)));
  }

  lemma PrefixOptionFields(s: Config, rest: Bytes)
    ensures var d := PrefixOption(s) + rest;
            && d[0] == OPT_PREFIX && d[1] == 4 && d[2] == 64 && d[32..] == rest
            && Word32At(d, 16) == s.prefix && Word32At(d, 20) == s.ip
  {
  }

  lemma MtuOptionFields(s: Config)
    requires s.mtu <= 65535
    ensures var d := MtuOption(s);
            && d[0] == OPT_MTU && d[1] == 1 && d[8..] == []
            && Num32(Word32At(d, 4)) == s.mtu
  {
    hide ToW32;
    assert Word32At(MtuOption(s), 4) == ToW32(s.mtu);
  }

  /** The walk over the server's two options finds its prefix, its address and its MTU. */
  lemma OptionsRead(s: Config, addr: Addr)
    requires 1280 <= s.mtu <= 65535 && addr.server == ZERO32
    ensures WalkOptions(PrefixOption(s) + MtuOption(s), Walk(true, addr, 0))
         == Walk(true, addr.(prefix := s.prefix, server := s.ip), s.mtu)
  {
    hide PrefixOption, MtuOption, Word32At, Num32;
    var d, m := PrefixOption(s) + MtuOption(s), MtuOption(s);
    var w := Walk(true, addr.(prefix := s.prefix, server := s.ip), 0);
    PrefixOptionFields(s, m);
    MtuOptionFields(s);
    assert ReadOption(d, Walk(true, addr, 0)) == w;
    assert ReadOption(m, w) == w.(mtu := s.mtu);
    assert WalkOptions(m, w) == WalkOptions(m[8..], w.(mtu := s.mtu));
  }

  /** The Teredo address RFC 4380 prescribes: prefix, server, no flags, complemented mapping. */
  function QualifiedAddress(s: Config, source: Endpoint): (a: Addr)
    ensures MatchesClient(a, source) && (forall e :: MatchesClient(a, e) ==> e == source)
    ensures a.prefix == Normalise(s.prefix) && a.server == s.ip && a.flags == ZERO16
  {
    WithClient(Addr(Normalise(s.prefix), s.ip, ZERO16, ZERO16, ZERO32), source)
  }

  /** The advertisement as the client receives it from the server's Teredo port. */
  function Advertised(s: Config, nonce: Nonce8, source: Endpoint, from: W32, dest: W32): Packet
    requires s.mtu <= 65535
  {
    Packet(AdvertPacket(s, TEREDO_RESTRICT), Endpoint(from, TEREDO_PORT), dest, source, Some(Auth(nonce, false)))
  }

  lemma ClientAccepts(host: ByteOrder, s: Config, nonce: Nonce8, source: Endpoint, from: W32, dest: W32,
                      addr: Addr, mtu: nat)
    requires 1280 <= s.mtu <= 65535 && source.ip != ZERO32
    ensures var p := Advertised(s, nonce, source, from, dest);
            && WellFormed(p.ip6) && IsMaintenance(p)
            && (MaintenanceRecv(host, p, s.ip, nonce, addr, mtu)
                == Parsed(true, QualifiedAddress(s, source), s.mtu)
                <==> IsValidPrefix(host, Normalise(s.prefix)))
            && (MaintenanceRecv(host, p, s.ip, nonce, addr, mtu).ok <==> IsValidPrefix(host, Normalise(s.prefix)))
  {
    hide AdvertPacket, WalkOptions, Normalise;
    AdvertShape(s);
    OptionsRead(s, addr.(server := ZERO32));
  }

  /** Qualification completes.  Whatever the client's NAT made of its source, as long as the server answers
      that source at all: the solicitation decodes, the server answers to that source, the answer decodes and
      is for the maintenance procedure, and a client resolved to this server accepts it exactly when the
      (normalised) server prefix is valid on its host -- obtaining the prescribed address and the server's MTU. */
  lemma QualificationCompletes(host: ByteOrder, s: Config, nonce: Nonce8, source: Endpoint, dest: W32,
                               stale: Nonce8, addr: Addr, mtu: nat)
    requires 1280 <= s.mtu <= 65535 && Answered(s, source)
    ensures var rs := Decode(Solicitation(nonce));
            && rs.Some?
            && rs.value == Frame(Some(Auth(nonce, false)), NOWHERE, SolicitPacket())
            && Process(s, Arrived(rs.value, source, s.ip), false, stale)
               == Reply(false, source, Answer(s, nonce, source))
    ensures var ra := Decode(Answer(s, nonce, source));
            && ra.Some?
            && var p := Arrived(ra.value, Endpoint(s.ip, TEREDO_PORT), dest);
            && WellFormed(p.ip6) && IsMaintenance(p) && p.auth.Some?
            && var r := MaintenanceRecv(host, p, s.ip, nonce, addr, mtu);
            && (r.ok <==> IsValidPrefix(host, Normalise(s.prefix)))
            && (r.ok ==> r.addr == QualifiedAddress(s, source) && r.mtu == s.mtu)
  {
    hide SolicitPacket, AdvertPacket, AuthHeader, OriginHeader, WalkOptions, Normalise, MaintenanceRecv,
      Process, Solicitation, Answer;
    SolicitationDecodes(nonce, source, s.ip);
    ServerAnswers(s, nonce, source, s.ip, false, stale);
    assert source.ip != ZERO32;
    AnswerDecodes(s, nonce, source);
    ClientAccepts(host, s, nonce, source, s.ip, dest, addr, mtu);
  }

  /** With a properly configured server and a client of the same byte order, acceptance is unconditional. */
  lemma SameOrderQualifies(host: ByteOrder, s: Config)
    requires ValidConfig(host, s)
    ensures IsValidPrefix(host, Normalise(s.prefix))
  {
  }

  /** With different byte orders it is not: this prefix is valid for the server and refused by the client. */
  lemma MixedOrderMayFail()
    ensures var s := Config(W32(8, 8, 8, 8), W32(8, 8, 8, 9), W32(0x20, 0x01, 0, 0xff), 1280);
            ValidConfig(BigEndian, s) && !IsValidPrefix(LittleEndian, Normalise(s.prefix))
  {
  }

  lemma FourWords(s: Bytes)
    requires |s| == 8
    ensures Checksum.WordSum(BigEndian, s)
         == Num16(Word16At(s, 0)) + Num16(Word16At(s, 2)) + Num16(Word16At(s, 4)) + Num16(Word16At(s, 6))
  {
    var t, u, v := s[2..], s[4..], s[6..];
    assert t[2..] == u && u[2..] == v && v[2..] == [];
    assert Checksum.WordSum(BigEndian, v) == Checksum.Load(BigEndian, v[0], v[1]);
    assert Checksum.WordSum(BigEndian, u) == Checksum.Load(BigEndian, u[0], u[1]) + Checksum.WordSum(BigEndian, v);
    assert Checksum.WordSum(BigEndian, t) == Checksum.Load(BigEndian, t[0], t[1]) + Checksum.WordSum(BigEndian, u);
  }

  lemma GroupOfEight(a: Bytes, rest: Bytes)
    requires |a| == 8
    ensures Checksum.WordSum(BigEndian, a + rest)
         == Num16(Word16At(a, 0)) + Num16(Word16At(a, 2)) + Num16(Word16At(a, 4)) + Num16(Word16At(a, 6))
            + Checksum.WordSum(BigEndian, rest)
  {
    hide Num16, Word16At;
    Checksum.WordSumAppend(BigEndian, a, rest);
    FourWords(a);
  }

  /** The solicitation's precomputed checksum is the right one: recomputing it over the message gives zero. */
  lemma SolicitChecksum()
    ensures Checksum.Inet(BigEndian,
              Checksum.Pseudo(AddrBytes(TEREDO_RESTRICT), AddrBytes(ALL_ROUTERS), ICMPV6, SOLICIT)) == 0
  {
    hide Checksum.WordSum, Checksum.Fold;
    var a: Bytes, b: Bytes, c: Bytes, d: Bytes, e: Bytes := [0xfe, 0x80, 0, 0, 0, 0, 0, 0],
      [0, 0, 0xff, 0xff, 0xff, 0xff, 0xff, 0xff], [0xff, 0x02, 0, 0, 0, 0, 0, 0],
      [0, 0, 0, 0, 0, 0, 0, 2], [0, 0, 0, 8, 0, 0, 0, 58];
    assert ToW32(8) == W32(0, 0, 0, 8);
    assert AddrBytes(TEREDO_RESTRICT) == a + b && AddrBytes(ALL_ROUTERS) == c + d;
    assert Checksum.Pseudo(AddrBytes(TEREDO_RESTRICT), AddrBytes(ALL_ROUTERS), ICMPV6, SOLICIT)
        == a + (b + (c + (d + (e + SOLICIT))));
    FourWords(SOLICIT);
    GroupOfEight(e, SOLICIT);
    GroupOfEight(d, e + SOLICIT);
    GroupOfEight(c, d + (e + SOLICIT));
    GroupOfEight(b, c + (d + (e + SOLICIT)));
    GroupOfEight(a, b + (c + (d + (e + SOLICIT))));
    Checksum.FoldUnique(6 * 0xffff, 0xffff, 5);
  }

  /** The checksum of every advertisement verifies. */
  lemma AdvertChecksum(s: Config, dst: Addr)
    requires s.mtu <= 65535
    ensures Checksum.Inet(BigEndian, Checksum.Pseudo(AddrBytes(LinkLocal(s)), AddrBytes(dst), ICMPV6,
                                                     AdvertPacket(s, dst)[40..])) == 0
  {
    hide Icmp6, AdvertBody, LinkLocal, Checksum.Pseudo, Checksum.Inet, Header;
    var h, m := Header(56, ICMPV6, 255, LinkLocal(s), dst), Icmp6(LinkLocal(s), dst, 134, AdvertBody(s));
    assert (h + m)[40..] == m;
    Icmp6Verifies(LinkLocal(s), dst, 134, AdvertBody(s));
  }
}
