/** Addresses and fields as they travel on the wire.

  Everything libteredo compares, copies or complements is kept in network byte
  order, so a 32-bit or 16-bit field is modelled by its bytes.  The host byte
  order matters only where the source reads such a field as a number without
  converting it; those places take a `ByteOrder`.
*/
module Net {

  type byte = x: int | 0 <= x < 256
  type Bytes = seq<byte>

  datatype Option<+T> = None | Some(value: T)

  datatype ByteOrder = LittleEndian | BigEndian

  datatype W32 = W32(b0: byte, b1: byte, b2: byte, b3: byte)
  datatype W16 = W16(b0: byte, b1: byte)

  /** A UDP/IPv4 transport address. */
  datatype Endpoint = Endpoint(ip: W32, port: W16)

  /** `union teredo_addr`: the Teredo reading of the sixteen bytes of an IPv6 address. */
  datatype Addr = Addr(prefix: W32, server: W32, flags: W16, clientPort: W16, clientIp: W32)

  const ZERO32 := W32(0, 0, 0, 0)
  const ZERO16 := W16(0, 0)
  const NOWHERE := Endpoint(ZERO32, ZERO16)
  const TEREDO_PORT := W16(13, 216)                      // 3544
  const TEREDO_PREFIX := W32(0x20, 0x01, 0, 0)
  const TEREDO_PREFIX_OBSOLETE := W32(0x3f, 0xfe, 0x83, 0x1f)
  const DISCOVERY_IPV4 := W32(0xe0, 0, 0, 0xfd)
  const TEREDO_RESTRICT := Addr(W32(0xfe, 0x80, 0, 0), ZERO32, ZERO16, W16(0xff, 0xff), W32(0xff, 0xff, 0xff, 0xff))
  const ALL_ROUTERS := Addr(W32(0xff, 0x02, 0, 0), ZERO32, ZERO16, ZERO16, W32(0, 0, 0, 2))
  const ALL_NODES := Addr(W32(0xff, 0x02, 0, 0), ZERO32, ZERO16, ZERO16, W32(0, 0, 0, 1))
  const ICMPV6: byte := 58
  const NO_NEXT_HEADER: byte := 59

  function Not32(w: W32): W32 {
    W32(255 - w.b0, 255 - w.b1, 255 - w.b2, 255 - w.b3)
  }

  function Not16(w: W16): W16 {
    W16(255 - w.b0, 255 - w.b1)
  }

  function Bytes32(w: W32): Bytes {
    [w.b0, w.b1, w.b2, w.b3]
  }

  function Bytes16(w: W16): Bytes {
    [w.b0, w.b1]
  }

  function Word32At(s: Bytes, i: nat): W32
    requires i + 4 <= |s|
  {
    W32(s[i], s[i + 1], s[i + 2], s[i + 3])
  }

  function Word16At(s: Bytes, i: nat): W16
    requires i + 2 <= |s|
  {
    W16(s[i], s[i + 1])
  }

  function Num16(w: W16): (n: nat)
    ensures n < 0x10000
  {
    256 * w.b0 + w.b1
  }

  function Num32(w: W32): (n: nat)
    ensures n < 0x1_0000_0000
  {
    0x100_0000 * w.b0 + 0x1_0000 * w.b1 + 0x100 * w.b2 + w.b3
  }

  function ToW16(n: nat): (w: W16)
    requires n < 0x10000
    ensures Num16(w) == n
  {
    W16(n / 256, n % 256)
  }

  function ToW32(n: nat): (w: W32)
    requires n < 0x1_0000_0000
    ensures Num32(w) == n
  {
    var high, low := n / 0x1_0000, n % 0x1_0000;
    W32(high / 256, high % 256, low / 256, low % 256)
  }

  function AddrBytes(a: Addr): (s: Bytes)
    ensures |s| == 16
  {
    [a.prefix.b0, a.prefix.b1, a.prefix.b2, a.prefix.b3,
     a.server.b0, a.server.b1, a.server.b2, a.server.b3,
     a.flags.b0, a.flags.b1, a.clientPort.b0, a.clientPort.b1,
     a.clientIp.b0, a.clientIp.b1, a.clientIp.b2, a.clientIp.b3]
  }

  function AddrAt(s: Bytes, i: nat): Addr
    requires i + 16 <= |s|
  {
    Addr(Word32At(s, i), Word32At(s, i + 4), Word16At(s, i + 8), Word16At(s, i + 10), Word32At(s, i + 12))
  }

  // ---- Teredo address accessors ----

  /** The external mapping that a Teredo address advertises (stored complemented). */
  function ClientMapping(a: Addr): Endpoint {
    Endpoint(Not32(a.clientIp), Not16(a.clientPort))
  }

  predicate MatchesClient(a: Addr, e: Endpoint) {
    ClientMapping(a) == e
  }

  predicate IsCone(a: Addr) {
    a.flags.b0 >= 128
  }

  function WithClient(a: Addr, e: Endpoint): (r: Addr)
    ensures MatchesClient(r, e)
    ensures forall e' :: MatchesClient(r, e') ==> e' == e
    ensures r.prefix == a.prefix && r.server == a.server && r.flags == a.flags
  {
    a.(clientIp := Not32(e.ip), clientPort := Not16(e.port))
  }

  predicate IsMulticast(a: Addr) {
    a.prefix.b0 == 0xff
  }

  predicate IsLinkLocal(a: Addr) {
    a.prefix.b0 == 0xfe && a.prefix.b1 / 64 == 2
  }

  predicate IsGlobalAddr(a: Addr) {
    && !(a.prefix == ZERO32 && a.server == ZERO32 && a.flags == ZERO16 && a.clientPort == ZERO16
         && (a.clientIp == ZERO32 || a.clientIp == W32(0, 0, 0, 1)))
    && !IsLinkLocal(a)
    && !IsMulticast(a)
  }

  // ---- Predicates whose code and comments disagree ----

  /** `is_ipv4_global_unicast`, exactly as coded. */
  predicate IsGlobalUnicast(ip: W32) {
    if ip.b0 < 128 then
      ip.b0 != 10 && ip.b0 != 127 && ip.b0 != 0
    else if ip.b0 < 192 then
      !(ip.b0 == 169 && ip.b1 == 254) && !(ip.b0 == 172 && ip.b1 / 16 == 1)
    else if ip.b0 < 224 then
      !(ip.b0 == 192 && ip.b1 == 168) && !(ip.b0 == 192 && ip.b1 == 88 && ip.b2 == 0x62)
    else
      ip.b0 >= 240 && ip != W32(255, 255, 255, 255)
  }

  /** An address block, written as in the comments of the source. */
  datatype Cidr = Cidr(base: W32, bits: nat)

  predicate InCidr(ip: W32, b: Cidr) {
    if b.bits == 4 then ip.b0 / 16 == b.base.b0 / 16
    else if b.bits == 8 then ip.b0 == b.base.b0
    else if b.bits == 12 then ip.b0 == b.base.b0 && ip.b1 / 16 == b.base.b1 / 16
    else if b.bits == 16 then ip.b0 == b.base.b0 && ip.b1 == b.base.b1
    else if b.bits == 24 then ip.b0 == b.base.b0 && ip.b1 == b.base.b1 && ip.b2 == b.base.b2
    else ip == b.base
  }

  /** The blocks that the comments call forbidden. */
  predicate IsDocumentedGlobal(ip: W32) {
    && !InCidr(ip, Cidr(W32(0, 0, 0, 0), 8)) && !InCidr(ip, Cidr(W32(10, 0, 0, 0), 8))
    && !InCidr(ip, Cidr(W32(127, 0, 0, 0), 8)) && !InCidr(ip, Cidr(W32(169, 254, 0, 0), 16))
    && !InCidr(ip, Cidr(W32(172, 16, 0, 0), 12)) && !InCidr(ip, Cidr(W32(192, 168, 0, 0), 16))
    && !InCidr(ip, Cidr(W32(192, 88, 99, 0), 24)) && !InCidr(ip, Cidr(W32(224, 0, 0, 0), 4))
    && !InCidr(ip, Cidr(W32(255, 255, 255, 255), 32))
  }

  /** The code forbids 192.88.98.0/24 where its comment announces 192.88.99.0/24; nothing else differs. */
  lemma GlobalUnicastDeviation(ip: W32)
    ensures (IsGlobalUnicast(ip) <==> IsDocumentedGlobal(ip))
       <==> !InCidr(ip, Cidr(W32(192, 88, 98, 0), 24)) && !InCidr(ip, Cidr(W32(192, 88, 99, 0), 24))
  {
    assert InCidr(ip, Cidr(W32(224, 0, 0, 0), 4)) <==> 224 <= ip.b0 < 240;
    assert InCidr(ip, Cidr(W32(172, 16, 0, 0), 12)) <==> ip.b0 == 172 && ip.b1 / 16 == 1;
  }

  /** `is_valid_teredo_prefix`: masks the network-order field as a host number. */
  predicate IsValidPrefix(host: ByteOrder, prefix: W32) {
    match host
    case BigEndian => prefix.b0 != 0xff
    case LittleEndian => prefix.b3 != 0xff
  }

  /** What the comment promises: every prefix outside the multicast range ff00::/8. */
  predicate IsUnicastPrefix(prefix: W32) {
    prefix.b0 != 0xff
  }

  /** The promise is kept for a prefix exactly when the byte the host looks at gives the same answer. */
  lemma ValidPrefixDeviation(host: ByteOrder, prefix: W32)
    ensures (IsValidPrefix(host, prefix) <==> IsUnicastPrefix(prefix))
       <==> host == BigEndian || (prefix.b0 == 0xff <==> prefix.b3 == 0xff)
    ensures IsValidPrefix(LittleEndian, W32(0xff, 0x02, 0, 0)) && !IsUnicastPrefix(W32(0xff, 0x02, 0, 0))
  {
  }

  // ---- The IPv6 header ----

  /** The checks every receiver makes before it looks at anything else. */
  predicate WellFormed(ip6: Bytes) {
    |ip6| >= 40 && ip6[0] / 16 == 6 && 40 + PayloadLength(ip6) <= |ip6|
  }

  function PayloadLength(ip6: Bytes): nat
    requires |ip6| >= 40
  {
    Num16(Word16At(ip6, 4))
  }

  function NextHeader(ip6: Bytes): byte
    requires |ip6| >= 40
  {
    ip6[6]
  }

  function Src(ip6: Bytes): Addr
    requires |ip6| >= 40
  {
    AddrAt(ip6, 8)
  }

  function Dst(ip6: Bytes): Addr
    requires |ip6| >= 40
  {
    AddrAt(ip6, 24)
  }

  predicate IsBubble(ip6: Bytes)
    requires |ip6| >= 40
  {
    PayloadLength(ip6) == 0 && NextHeader(ip6) == NO_NEXT_HEADER
  }

  /** Version 6, no traffic class nor flow label. */
  function Header(plen: nat, next: byte, hops: byte, src: Addr, dst: Addr): (h: Bytes)
    requires plen < 0x10000
    ensures |h| == 40 && h[0] / 16 == 6
    ensures PayloadLength(h) == plen && NextHeader(h) == next && Src(h) == src && Dst(h) == dst
  {
    [0x60, 0, 0, 0, plen / 256, plen % 256, next, hops] + AddrBytes(src) + AddrBytes(dst)
  }

  /** The header fields of a packet are those of its first forty bytes. */
  lemma HeaderOf(ip6: Bytes, rest: Bytes)
    requires |ip6| >= 40
    ensures |ip6 + rest| >= 40
    ensures PayloadLength(ip6 + rest) == PayloadLength(ip6) && NextHeader(ip6 + rest) == NextHeader(ip6)
    ensures Src(ip6 + rest) == Src(ip6) && Dst(ip6 + rest) == Dst(ip6)
  {
  }

  function Bubble(src: Addr, dst: Addr): (b: Bytes)
    ensures |b| == 40 && WellFormed(b) && IsBubble(b) && Src(b) == src && Dst(b) == dst
  {
    Header(0, NO_NEXT_HEADER, 0, src, dst)
  }
}
