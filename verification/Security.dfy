/** Keyed hashes of libteredo: HMAC-MD5 (section 2 of RFC 2104) over addresses, process and time. */
module Security {
  import opened Net
  import opened Pieces
  import opened Streaming
  import Md5
  import LibteredoMd5

  function ToOctets(b: Bytes): (o: Octets)
    ensures |o| == |b|
  {
    seq(|b|, i requires 0 <= i < |b| => b[i] as bv8)
  }

  function FromOctets(o: Octets): (b: Bytes)
    ensures |b| == |o|
  {
    seq(|o|, i requires 0 <= i < |o| => o[i] as int)
  }

  function XorAll(k: Octets, pad: bv8): (r: Octets)
    ensures |r| == |k|
  {
    seq(|k|, i requires 0 <= i < |k| => k[i] ^ pad)
  }

  /** `H(K XOR opad, H(K XOR ipad, text))`, for a key already padded to the block length. */
  function Hmac(key: Block, text: Octets): (mac: Octets)
    ensures |mac| == 16
  {
    Md5.Digest(XorAll(key, 0x5c) + Md5.Digest(XorAll(key, 0x36) + text))
  }

  /** The process-wide secret: the padded key and `hmac_pid`. */
  datatype Secret = Secret(key: Block, pid: W16)

  /** What `teredo_hash` authenticates. */
  function Text(s: Secret, src: Bytes, dst: Bytes, time: W32): Octets {
    ToOctets(src) + ToOctets(dst) + ToOctets(Bytes16(s.pid)) + ToOctets(Bytes32(time))
  }

  function Mac(s: Secret, src: Bytes, dst: Bytes, time: W32): (h: Bytes)
    ensures |h| == 16
  {
    FromOctets(Hmac(s.key, Text(s, src, dst, time)))
  }

  /** `teredo_hash`: five appends to the inner hash, two to the outer one, with precomputed pads. */
  method TeredoHash(s: Secret, ipad: Octets, opad: Octets, src: Bytes, dst: Bytes, time: W32) returns (h: Bytes)
    requires ipad == XorAll(s.key, 0x36) && opad == XorAll(s.key, 0x5c)
    requires |src| < 0x7fff_ffc0 && |dst| < 0x7fff_ffc0
    ensures h == Mac(s, src, dst, time)
  {
    hide XorAll, Md5.Digest, ToOctets, FromOctets;
    var a, b, c, d := ToOctets(src), ToOctets(dst), ToOctets(Bytes16(s.pid)), ToOctets(Bytes32(time));
    ConcatFive(ipad, a, b, c, d);
    var hash := LibteredoMd5.DigestParts([ipad, a, b, c, d]);
    ConcatTwo(opad, hash);
    hash := LibteredoMd5.DigestParts([opad, hash]);
    h := FromOctets(hash);
  }

  lemma ConcatTwo(x: Octets, y: Octets)
    ensures Concat([x, y]) == x + y
  {
    assert [x, y][1..] == [y] && [y][1..] == [];
    assert Concat([y]) == y + Concat([]);
  }

  lemma ConcatFive(x: Octets, a: Octets, b: Octets, c: Octets, d: Octets)
    ensures Concat([x, a, b, c, d]) == x + (a + b + c + d)
  {
    assert [x, a, b, c, d][1..] == [a, b, c, d] && [a, b, c, d][1..] == [b, c, d];
    assert [b, c, d][1..] == [c, d];
    ConcatTwo(c, d);
    assert Concat([b, c, d]) == b + (c + d);
    assert Concat([a, b, c, d]) == a + (b + (c + d));
  }

  // ---- Nonces ----

  /** How a 32-bit time given in host order lies in memory. */
  function HostTime(host: ByteOrder, t: nat): W32
    requires t < TWO32
  {
    var w := ToW32(t);
    if host == BigEndian then w else W32(w.b3, w.b2, w.b1, w.b0)
  }

  /** `teredo_get_nonce` */
  function Nonce(s: Secret, host: ByteOrder, t: nat, e: Endpoint): (n: Bytes)
    requires t < TWO32
    ensures |n| == 8
  {
    Mac(s, Bytes32(e.ip), Bytes16(e.port), HostTime(host, t))[..8]
  }

  // ---- Ping hashes ----

  /** `teredo_get_pinghash`: pid, low then high half of the time, and the hash. */
  function PingHash(s: Secret, t: nat, src: Addr, dst: Addr): (p: Bytes)
    requires t < TWO32
    ensures |p| == 22
  {
    var w := ToW32(t);
    [s.pid.b0, s.pid.b1, w.b2, w.b3, w.b0, w.b1] + Mac(s, AddrBytes(src), AddrBytes(dst), w)
  }

  /** `teredo_verify_pinghash` */
  predicate VerifyPingHash(s: Secret, now: nat, src: Addr, dst: Addr, p: Bytes)
    requires |p| == 22
  {
    var w := W32(p[4], p[5], p[2], p[3]);
    && Word16At(p, 0) == s.pid
    && (now - Num32(w)) % TWO32 < 30
    && Mac(s, AddrBytes(src), AddrBytes(dst), w) == p[6..]
  }

  /** A hash made at time t verifies at time n exactly during the next thirty ticks of a 32-bit clock. */
  lemma ProbeWindow(s: Secret, t: nat, n: nat, src: Addr, dst: Addr)
    requires t < TWO32
    ensures VerifyPingHash(s, n, src, dst, PingHash(s, t, src, dst)) <==> (n - t) % TWO32 < 30
  {
    hide Mac, ToW32;
    var p, w := PingHash(s, t, src, dst), ToW32(t);
    assert p[6..] == Mac(s, AddrBytes(src), AddrBytes(dst), w);
    assert W32(p[4], p[5], p[2], p[3]) == w;
  }
}
