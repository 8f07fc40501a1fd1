/** Teredo encapsulation: optional authentication and origin headers before an IPv6 packet
    (section 5.1.1 of RFC 4380, as decoded by teredo.c). */
module Codec {
  import opened Net

  /** Nonce and confirmation byte of an authentication header. */
  datatype Auth = Auth(nonce: Bytes, fail: bool)

  /** What a datagram says; an absent origin reads as 0.0.0.0 port 0. */
  datatype Frame = Frame(auth: Option<Auth>, orig: Endpoint, ip6: Bytes)

  predicate StartsWith(d: Bytes, b0: byte, b1: byte) {
    |d| >= 2 && d[0] == b0 && d[1] == b1
  }

  function DecodeOrigin(auth: Option<Auth>, d: Bytes): Option<Frame> {
    if !StartsWith(d, 0, 0) then Some(Frame(auth, NOWHERE, d))
    else if |d| < 8 then None
    else Some(Frame(auth, Endpoint(Not32(Word32At(d, 4)), Not16(Word16At(d, 2))), d[8..]))
  }

  function Decode(d: Bytes): Option<Frame> {
    if |d| < 2 then None
    else if !StartsWith(d, 0, 1) then DecodeOrigin(None, d)
    else if |d| < 13 then None
    else
      var skip := d[2] as nat + d[3] as nat;
      if |d| < 13 + skip then None
      else DecodeOrigin(Some(Auth(d[4 + skip..12 + skip], d[12 + skip] != 0)), d[13 + skip..])
  }

  // ---- The decoder's buffer work ----

  /** The part of `teredo_recv_inner` after the receive call: an authentication header is stripped by moving
      the rest of the datagram to the front of the buffer.  When fewer than two bytes are left there, the
      origin test looks at bytes of the stripped header; it still answers from the datagram alone. */
  method RecvInner(buf: array<byte>, received: nat) returns (r: Option<Frame>)
    requires 2 <= buf.Length && received <= buf.Length
    modifies buf
    ensures r == Decode(old(buf[..received]))
  {
    var length: int := received;
    if length < 2 {
      return None;
    }
    ghost var d := buf[..received];
    var auth: Option<Auth> := None;
    if buf[0] == 0 && buf[1] == 1 {
      length := length - 13;
      if length < 0 {
        return None;
      }
      var skip := buf[2] as int + buf[3] as int;
      length := length - skip;
      if length < 0 {
        return None;
      }
      var ptr := 4 + skip;
      auth := Some(Auth(buf[ptr..ptr + 8], buf[ptr + 8] != 0));
      assert buf[ptr..ptr + 8] == d[ptr..ptr + 8];
      Move(buf, ptr + 9, length);
      assert buf[..length] == d[13 + skip..];
      assert length < 2 ==> buf[1] == d[1];
    }
    r := ReadOrigin(auth, buf, length);
  }

  /** The origin indication, looked for at the front of the buffer. */
  method ReadOrigin(auth: Option<Auth>, buf: array<byte>, left: nat) returns (r: Option<Frame>)
    requires 2 <= buf.Length && left <= buf.Length && (left < 2 ==> buf[1] != 0)
    ensures r == DecodeOrigin(auth, buf[..left])
  {
    ghost var rest := buf[..left];
    var length: int, ptr, orig := left, 0, NOWHERE;
    if buf[0] == 0 && buf[1] == 0 {
      length := length - 8;
      if length < 0 {
        return None;
      }
      var port, addr := W16(buf[2], buf[3]), W32(buf[4], buf[5], buf[6], buf[7]);
      orig := Endpoint(Not32(addr), Not16(port));
      ptr := 8;
      assert rest[8..] == buf[8..8 + length];
    }
    r := Some(Frame(auth, orig, buf[ptr..ptr + length]));
  }

  /** `memmove` of `n` bytes from offset `from` to the front. */
  method Move(buf: array<byte>, from: nat, n: nat)
    requires from + n <= buf.Length
    modifies buf
    ensures buf[..n] == old(buf[from..from + n])
    ensures buf[n..] == old(buf[n..])
  {
    forall i | 0 <= i < n {
      buf[i] := buf[from + i];
    }
  }

  // ---- What the decoder accepts ----

  /** A well-formed authentication header; identifier and authentication value are skipped unread. */
  ghost predicate IsAuthHeader(h: Bytes, a: Auth) {
    && StartsWith(h, 0, 1) && |h| >= 13
    && var skip := h[2] as nat + h[3] as nat;
    && |h| == 13 + skip
    && a == Auth(h[4 + skip..12 + skip], h[12 + skip] != 0)
  }

  ghost predicate IsOriginHeader(h: Bytes, e: Endpoint) {
    |h| == 8 && h == OriginHeader(e)
  }

  function OriginHeader(e: Endpoint): (h: Bytes)
    ensures |h| == 8
  {
    [0, 0] + Bytes16(Not16(e.port)) + Bytes32(Not32(e.ip))
  }

  /** The datagram is authentication header, origin header, IPv6 packet, the first two optional. */
  ghost predicate Splits(d: Bytes, a: Bytes, o: Bytes, f: Frame) {
    && d == a + (o + f.ip6)
    && (if f.auth.None? then a == [] && !StartsWith(d, 0, 1) else IsAuthHeader(a, f.auth.value))
    && (if o == [] then f.orig == NOWHERE && !StartsWith(f.ip6, 0, 0) else IsOriginHeader(o, f.orig))
  }

  lemma OriginSplits(auth: Option<Auth>, d: Bytes, f: Frame) returns (o: Bytes)
    requires DecodeOrigin(auth, d) == Some(f)
    ensures d == o + f.ip6 && f.auth == auth
    ensures if o == [] then f.orig == NOWHERE && !StartsWith(f.ip6, 0, 0) else IsOriginHeader(o, f.orig)
  {
    o := if StartsWith(d, 0, 0) then d[..8] else [];
  }

  /** Every accepted datagram splits exactly. */
  lemma AcceptedSplits(d: Bytes, f: Frame) returns (a: Bytes, o: Bytes)
    requires Decode(d) == Some(f)
    ensures |d| >= 2 && Splits(d, a, o, f)
  {
    if StartsWith(d, 0, 1) {
      var skip := d[2] as nat + d[3] as nat;
      a := d[..13 + skip];
      o := OriginSplits(Some(Auth(d[4 + skip..12 + skip], d[12 + skip] != 0)), d[13 + skip..], f);
      assert a[4 + skip..12 + skip] == d[4 + skip..12 + skip];
      assert d == a + d[13 + skip..];
    } else {
      a := [];
      o := OriginSplits(None, d, f);
      assert d == a + d;
    }
  }

  lemma DecodeOriginOf(auth: Option<Auth>, o: Bytes, f: Frame)
    requires f.auth == auth
    requires if o == [] then f.orig == NOWHERE && !StartsWith(f.ip6, 0, 0) else IsOriginHeader(o, f.orig)
    ensures DecodeOrigin(auth, o + f.ip6) == Some(f)
  {
    var d := o + f.ip6;
    if o == [] {
      assert d == f.ip6;
    } else {
      assert d[..8] == o && d[8..] == f.ip6;
      assert Word32At(d, 4) == Not32(f.orig.ip) && Word16At(d, 2) == Not16(f.orig.port);
    }
  }

  /** Every datagram that splits is accepted, and the decoder reads back what was framed. */
  lemma SplitsAccepted(d: Bytes, a: Bytes, o: Bytes, f: Frame)
    requires |d| >= 2 && Splits(d, a, o, f)
    ensures Decode(d) == Some(f)
  {
    DecodeOriginOf(f.auth, o, f);
    if f.auth.None? {
      assert d == o + f.ip6;
    } else {
      var skip := a[2] as nat + a[3] as nat;
      assert d[..13 + skip] == a && d[13 + skip..] == o + f.ip6;
      assert d[4 + skip..12 + skip] == a[4 + skip..12 + skip];
    }
  }

  // ---- What the senders frame ----

  /** The header of `teredo_send_rs` and `SendRA`: no identifier, no authentication value, confirmation zero. */
  function AuthHeader(nonce: Bytes): (h: Bytes)
    requires |nonce| == 8
    ensures |h| == 13
  {
    [0, 1, 0, 0] + nonce + [0]
  }

  function Encode(f: Frame): Bytes
    requires f.auth.Some? ==> |f.auth.value.nonce| == 8
  {
    (if f.auth.Some? then AuthHeader(f.auth.value.nonce) else [])
    + ((if f.orig == NOWHERE then [] else OriginHeader(f.orig)) + f.ip6)
  }

  /** Decoding inverts framing, for every packet that does not itself look like a Teredo header. */
  lemma RoundTrip(f: Frame)
    requires f.auth.Some? ==> |f.auth.value.nonce| == 8 && !f.auth.value.fail
    requires |f.ip6| >= 2 && f.ip6[0] != 0
    ensures Decode(Encode(f)) == Some(f)
  {
    var a := if f.auth.Some? then AuthHeader(f.auth.value.nonce) else [];
    var o := if f.orig == NOWHERE then [] else OriginHeader(f.orig);
    if f.auth.Some? {
      assert a[4..12] == f.auth.value.nonce;
    }
    SplitsAccepted(Encode(f), a, o, f);
  }
}
