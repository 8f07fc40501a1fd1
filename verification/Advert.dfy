/** Router solicitation and advertisement, client side (packets.c, maintain.c). */
module Advert {
  import opened Net
  import opened Codec
  import opened Packets

  const OPT_PREFIX: byte := 3
  const OPT_MTU: byte := 5

  // ---- Solicitation ----

  /** ICMPv6 part of `teredo_send_rs`, with its precomputed checksum. */
  const SOLICIT: Bytes := [133, 0, 0x7d, 0x37, 0, 0, 0, 0]

  function SolicitPacket(): (p: Bytes)
    ensures |p| == 48 && WellFormed(p) && Src(p) == TEREDO_RESTRICT && Dst(p) == ALL_ROUTERS
    ensures NextHeader(p) == ICMPV6 && PayloadLength(p) == 8 && p[40] == 133
  {
    var h := Header(8, ICMPV6, 255, TEREDO_RESTRICT, ALL_ROUTERS);
    HeaderOf(h, SOLICIT);
    h + SOLICIT
  }

  /** `teredo_send_rs` */
  function Solicitation(nonce: Nonce8): Bytes {
    AuthHeader(nonce) + SolicitPacket()
  }

  // ---- Option walk ----

  /** State of the option loop: the address and MTU read so far, and whether to go on. */
  datatype Walk = Walk(ok: bool, addr: Addr, mtu: nat)

  function ReadOption(d: Bytes, w: Walk): (r: Walk)
    requires |d| >= 8 && 8 * d[1] as nat <= |d| && d[1] != 0
    ensures r.mtu == w.mtu || r.mtu == 0 || 1280 <= r.mtu <= 65535 || !r.ok
  {
    if d[0] == OPT_PREFIX then
      if d[1] < 4 || d[2] != 64 || w.addr.server != ZERO32 then w.(ok := false)
      else w.(addr := w.addr.(prefix := Word32At(d, 16), server := Word32At(d, 20)))
    else if d[0] == OPT_MTU then
      var mtu := Num32(Word32At(d, 4));
      Walk(1280 <= mtu <= 65535, w.addr, mtu)
    else w
  }

  function WalkOptions(d: Bytes, w: Walk): Walk
    decreases |d|
  {
    if !w.ok || |d| < 8 then w
    else if d[1] == 0 || |d| < 8 * d[1] as nat then w.(ok := false)
    else WalkOptions(d[8 * d[1] as nat..], ReadOption(d, w))
  }

  /** The loop of `teredo_parse_ra`. */
  method OptionLoop(d: Bytes, addr: Addr) returns (w: Walk)
    ensures w == WalkOptions(d, Walk(true, addr, 0))
  {
    hide ReadOption;
    w := Walk(true, addr, 0);
    var hdr := 0;
    assert d[0..] == d;
    while |d| - hdr >= 8
      invariant 0 <= hdr <= |d| && w.ok
      invariant WalkOptions(d[hdr..], w) == WalkOptions(d, Walk(true, addr, 0))
    {
      var opt := d[hdr..];
      var optlen := 8 * opt[1] as nat;
      if |opt| < optlen || optlen == 0 {
        return w.(ok := false);
      }
      assert opt[optlen..] == d[hdr + optlen..];
      w := ReadOption(opt, w);
      if !w.ok {
        return;
      }
      hdr := hdr + optlen;
    }
  }

  /** A 64-bit prefix option stands at a multiple of eight bytes in the options. */
  ghost predicate PrefixOptionAt(d: Bytes, i: nat, prefix: W32, server: W32) {
    && i % 8 == 0 && i + 32 <= |d|
    && d[i] == OPT_PREFIX && d[i + 2] == 64
    && Word32At(d, i + 16) == prefix && Word32At(d, i + 20) == server
  }

  /** A server address found by the walk comes, with its prefix, from one option of the same advertisement. */
  lemma {:induction false} PrefixProvenance(d: Bytes, w: Walk) returns (i: nat)
    requires WalkOptions(d, w).ok && w.addr.server == ZERO32
    ensures var r := WalkOptions(d, w).addr;
            r.server != ZERO32 ==> PrefixOptionAt(d, i, r.prefix, r.server)
    decreases |d|
  {
    hide Num32;
    i := 0;
    if |d| >= 8 {
      var n, w' := 8 * d[1] as nat, ReadOption(d, w);
      if w'.addr.server == ZERO32 {
        i := PrefixProvenance(d[n..], w');
        ShiftOption(d, n, i, WalkOptions(d, w).addr);
        i := n + i;
      } else {
        ServerKept(d[n..], w');
      }
    }
  }

  lemma ShiftOption(d: Bytes, n: nat, i: nat, a: Addr)
    requires n <= |d| && n % 8 == 0
    ensures PrefixOptionAt(d[n..], i, a.prefix, a.server) ==> PrefixOptionAt(d, n + i, a.prefix, a.server)
  {
    if PrefixOptionAt(d[n..], i, a.prefix, a.server) {
      assert Word32At(d[n..], i + 16) == Word32At(d, n + i + 16);
      assert Word32At(d[n..], i + 20) == Word32At(d, n + i + 20);
    }
  }

  /** Once a server address is known, a second prefix option fails the walk and others leave it alone. */
  lemma {:induction false} ServerKept(d: Bytes, w: Walk)
    requires WalkOptions(d, w).ok && w.addr.server != ZERO32
    ensures WalkOptions(d, w).addr == w.addr
    decreases |d|
  {
    hide Num32;
    if |d| >= 8 {
      ServerKept(d[8 * d[1] as nat..], ReadOption(d, w));
    }
  }

  /** The walk touches nothing but prefix and server, and leaves an MTU that is absent or valid. */
  lemma {:induction false} WalkBounds(d: Bytes, w: Walk)
    requires w.mtu == 0 || 1280 <= w.mtu <= 65535
    ensures var r := WalkOptions(d, w);
            && (r.ok ==> r.mtu == 0 || 1280 <= r.mtu <= 65535)
            && r.addr == w.addr.(prefix := r.addr.prefix, server := r.addr.server)
    decreases |d|
  {
    if w.ok && |d| >= 8 && d[1] != 0 && |d| >= 8 * d[1] as nat {
      var w' := ReadOption(d, w);
      if w'.ok {
        WalkBounds(d[8 * d[1] as nat..], w');
      }
    }
  }

  // ---- Advertisement ----

  /** The address and MTU a parse leaves behind, also when it fails. */
  datatype Parsed = Parsed(ok: bool, addr: Addr, mtu: nat)

  function Normalise(prefix: W32): W32 {
    if prefix == TEREDO_PREFIX_OBSOLETE then TEREDO_PREFIX else prefix
  }

  /** The options of an advertisement. */
  function OptionsOf(ip6: Bytes): Bytes
    requires WellFormed(ip6) && PayloadLength(ip6) >= 16
  {
    ip6[56..40 + PayloadLength(ip6)]
  }

  predicate LooksLikeAdvert(p: Packet)
    requires WellFormed(p.ip6)
  {
    && p.orig.ip != ZERO32
    && Dst(p.ip6) == TEREDO_RESTRICT && NextHeader(p.ip6) == ICMPV6
    && PayloadLength(p.ip6) >= 16 + 32
    && p.ip6[40] == 134 && p.ip6[41] == 0
  }

  /** `teredo_parse_ra` for a restricted (non-cone) solicitation, writing over `addr` and `mtu`. */
  function ParseRa(host: ByteOrder, p: Packet, addr: Addr, mtu: nat): Parsed
    requires WellFormed(p.ip6)
  {
    if !LooksLikeAdvert(p) then Parsed(false, addr, mtu)
    else
      var w := WalkOptions(OptionsOf(p.ip6), Walk(true, addr.(server := ZERO32), 0));
      var a := w.addr.(prefix := if w.ok then Normalise(w.addr.prefix) else w.addr.prefix);
      if !w.ok || !IsValidPrefix(host, a.prefix) then Parsed(false, a, mtu)
      else Parsed(true, WithClient(a.(flags := ZERO16), p.orig), if w.mtu != 0 then w.mtu else mtu)
  }

  /** `teredo_maintenance_process`: which packets are for the maintenance procedure. */
  predicate IsMaintenance(p: Packet)
    requires |p.ip6| >= 40
  {
    p.source.port == TEREDO_PORT && p.auth.Some? && Dst(p.ip6) == TEREDO_RESTRICT
  }

  /** `maintenance_recv`: accepted, with what it leaves in the candidate address and MTU either way. */
  function MaintenanceRecv(host: ByteOrder, p: Packet, server: W32, nonce: Nonce8, addr: Addr, mtu: nat): Parsed
    requires WellFormed(p.ip6) && p.auth.Some?
  {
    if p.auth.value.nonce != nonce || p.auth.value.fail then Parsed(false, addr, mtu)
    else
      var r := ParseRa(host, p, addr, mtu);
      r.(ok := r.ok && r.addr.server == server)
  }

  /** An accepted advertisement authenticates with our nonce; its prefix and server come from one of its own
      options, the client part from its origin indication, flags are clear and the MTU is in range. */
  lemma AcceptedAdvert(host: ByteOrder, p: Packet, server: W32, nonce: Nonce8, addr: Addr, mtu: nat)
      returns (i: nat, prefix: W32)
    requires WellFormed(p.ip6) && p.auth.Some? && server != ZERO32 && 1280 <= mtu <= 65535
    requires MaintenanceRecv(host, p, server, nonce, addr, mtu).ok
    ensures p.auth.value == Auth(nonce, false) && LooksLikeAdvert(p)
    ensures PrefixOptionAt(OptionsOf(p.ip6), i, prefix, server)
    ensures var r := MaintenanceRecv(host, p, server, nonce, addr, mtu);
            && r.addr == WithClient(Addr(Normalise(prefix), server, ZERO16, ZERO16, ZERO32), p.orig)
            && IsValidPrefix(host, r.addr.prefix)
            && 1280 <= r.mtu <= 65535
  {
    var w0 := Walk(true, addr.(server := ZERO32), 0);
    var d := OptionsOf(p.ip6);
    i := PrefixProvenance(d, w0);
    prefix := WalkOptions(d, w0).addr.prefix;
    WalkBounds(d, w0);
  }

  /** What two walks over the same options share when they start from different leftovers in memory. */
  predicate Alike(w: Walk, v: Walk) {
    && w.ok == v.ok && w.mtu == v.mtu && w.addr.server == v.addr.server
    && (w.addr.server != ZERO32 ==> w.addr.prefix == v.addr.prefix)
  }

  lemma {:induction false} WalksAlike(d: Bytes, w: Walk, v: Walk)
    requires Alike(w, v)
    ensures Alike(WalkOptions(d, w), WalkOptions(d, v))
    decreases |d|
  {
    hide Num32;
    if w.ok && |d| >= 8 && d[1] != 0 && |d| >= 8 * d[1] as nat {
      WalksAlike(d[8 * d[1] as nat..], ReadOption(d, w), ReadOption(d, v));
    }
  }

  /** Acceptance and the accepted address do not depend on what the candidate held before. */
  lemma AcceptanceIgnoresLeftovers(host: ByteOrder, p: Packet, server: W32, nonce: Nonce8, a: Addr, b: Addr,
                                   m: nat, n: nat)
    requires WellFormed(p.ip6) && p.auth.Some? && server != ZERO32
    ensures var r, q := MaintenanceRecv(host, p, server, nonce, a, m), MaintenanceRecv(host, p, server, nonce, b, n);
            r.ok == q.ok && (r.ok ==> r.addr == q.addr)
  {
    hide IsValidPrefix;
    if LooksLikeAdvert(p) {
      var d, w, v := OptionsOf(p.ip6), Walk(true, a.(server := ZERO32), 0), Walk(true, b.(server := ZERO32), 0);
      WalksAlike(d, w, v);
    }
  }

  /** The MTU that an advertisement's own options announce, zero if none does. */
  function OwnMtu(p: Packet): nat
    requires WellFormed(p.ip6)
  {
    if LooksLikeAdvert(p) then WalkOptions(OptionsOf(p.ip6), Walk(true, TEREDO_RESTRICT.(server := ZERO32), 0)).mtu else 0
  }

  /** A packet writes the MTU: it answers our solicitation, parses, and announces one.  That it is then rejected
      for its server address does not undo it. */
  predicate Writes(host: ByteOrder, p: Packet, nonce: Nonce8, addr: Addr)
    requires WellFormed(p.ip6) && p.auth.Some?
  {
    p.auth.value == Auth(nonce, false) && ParseRa(host, p, addr, 0).ok && OwnMtu(p) != 0
  }

  lemma MtuWritten(host: ByteOrder, p: Packet, server: W32, nonce: Nonce8, addr: Addr, mtu: nat)
    requires WellFormed(p.ip6) && p.auth.Some?
    ensures MaintenanceRecv(host, p, server, nonce, addr, mtu).mtu
         == if Writes(host, p, nonce, addr) then OwnMtu(p) else mtu
  {
    hide WalkOptions, OptionsOf, IsValidPrefix, Normalise, WithClient;
    if LooksLikeAdvert(p) {
      WalksAlike(OptionsOf(p.ip6), Walk(true, addr.(server := ZERO32), 0),
                 Walk(true, TEREDO_RESTRICT.(server := ZERO32), 0));
    }
  }

  // ---- Where prefix and server come from ----

  /** The prefix and server fields of the prefix options, in order. */
  function PrefixesIn(d: Bytes): seq<(W32, W32)>
    decreases |d|
  {
    if |d| < 8 || d[1] == 0 || |d| < 8 * d[1] as nat then []
    else
      (if d[0] == OPT_PREFIX && d[1] >= 4 then [(Word32At(d, 16), Word32At(d, 20))] else [])
      + PrefixesIn(d[8 * d[1] as nat..])
  }

  /** A walk that succeeds takes both from the last prefix option, and leaves them alone if there is none. */
  lemma {:induction false} WalkTakesLast(d: Bytes, w: Walk)
    requires WalkOptions(d, w).ok
    ensures var r, ps := WalkOptions(d, w).addr, PrefixesIn(d);
            (r.prefix, r.server) == if ps == [] then (w.addr.prefix, w.addr.server) else ps[|ps| - 1]
    decreases |d|
  {
    hide Num32, Word32At;
    if |d| >= 8 {
      WalkTakesLast(d[8 * d[1] as nat..], ReadOption(d, w));
    }
  }

  /** What a successful parse returns: prefix and server of the advertisement's last prefix option, or, without
      one, whatever prefix was left in the candidate and no server. */
  lemma ParsedFrom(host: ByteOrder, p: Packet, addr: Addr, mtu: nat)
    requires WellFormed(p.ip6) && ParseRa(host, p, addr, mtu).ok
    ensures LooksLikeAdvert(p)
    ensures var r, ps := ParseRa(host, p, addr, mtu).addr, PrefixesIn(OptionsOf(p.ip6));
            && r.prefix == Normalise(if ps == [] then addr.prefix else ps[|ps| - 1].0)
            && r.server == if ps == [] then ZERO32 else ps[|ps| - 1].1
  {
    hide IsValidPrefix, WalkOptions, PrefixesIn, OptionsOf, WithClient, Normalise;
    var w := Walk(true, addr.(server := ZERO32), 0);
    WalkTakesLast(OptionsOf(p.ip6), w);
    ClientPartOnly(WalkOptions(OptionsOf(p.ip6), w).addr, p.orig);
  }

  lemma ClientPartOnly(a: Addr, e: Endpoint)
    ensures WithClient(a, e).prefix == a.prefix && WithClient(a, e).server == a.server
  {
  }

  predicate SamePrefixAndServer(a: Addr, b: Addr) {
    a.prefix == b.prefix && a.server == b.server
  }

  /** Prefix and server of a successful parse are the advertisement's own exactly if it has a prefix option. */
  lemma ParserIgnoresLeftovers(host: ByteOrder, p: Packet, mtu: nat)
    requires WellFormed(p.ip6) && LooksLikeAdvert(p)
    requires WalkOptions(OptionsOf(p.ip6), Walk(true, TEREDO_RESTRICT.(server := ZERO32), 0)).ok
    ensures (forall a, b :: ParseRa(host, p, a, mtu).ok && ParseRa(host, p, b, mtu).ok ==>
               SamePrefixAndServer(ParseRa(host, p, a, mtu).addr, ParseRa(host, p, b, mtu).addr))
       <==> PrefixesIn(OptionsOf(p.ip6)) != []
  {
    hide ParseRa, WalkOptions, PrefixesIn, OptionsOf;
    forall a | ParseRa(host, p, a, mtu).ok
      ensures var r, ps := ParseRa(host, p, a, mtu).addr, PrefixesIn(OptionsOf(p.ip6));
              && r.prefix == Normalise(if ps == [] then a.prefix else ps[|ps| - 1].0)
              && r.server == if ps == [] then ZERO32 else ps[|ps| - 1].1
    {
      ParsedFrom(host, p, a, mtu);
    }
    if PrefixesIn(OptionsOf(p.ip6)) == [] {
      var a := TEREDO_RESTRICT.(prefix := W32(0x20, 2, 0, 0));
      var b := TEREDO_RESTRICT.(prefix := W32(0x20, 3, 0, 0));
      ParsesWith(host, p, a, mtu);
      ParsesWith(host, p, b, mtu);
      assert !SamePrefixAndServer(ParseRa(host, p, a, mtu).addr, ParseRa(host, p, b, mtu).addr);
    }
  }

  /** Without a prefix option the parser succeeds exactly if the leftover prefix is valid. */
  lemma ParsesWith(host: ByteOrder, p: Packet, addr: Addr, mtu: nat)
    requires WellFormed(p.ip6) && LooksLikeAdvert(p) && PrefixesIn(OptionsOf(p.ip6)) == []
    requires WalkOptions(OptionsOf(p.ip6), Walk(true, TEREDO_RESTRICT.(server := ZERO32), 0)).ok
    ensures ParseRa(host, p, addr, mtu).ok <==> IsValidPrefix(host, Normalise(addr.prefix))
  {
    hide WalkOptions, PrefixesIn, OptionsOf, IsValidPrefix, Normalise;
    var d, w, v := OptionsOf(p.ip6), Walk(true, addr.(server := ZERO32), 0),
                   Walk(true, TEREDO_RESTRICT.(server := ZERO32), 0);
    WalksAlike(d, w, v);
    WalkTakesLast(d, w);
  }

  // ---- Exactly which advertisements are accepted ----

  /** The options one by one; none at all if a length is zero or exceeds what is left.  Fewer than eight bytes at the end
      are ignored. */
  function Listed(d: Bytes): Option<seq<Bytes>>
    decreases |d|
  {
    if |d| < 8 then Some([])
    else
      var n := 8 * d[1] as nat;
      if n == 0 || |d| < n then None
      else
        var rest := Listed(d[n..]);
        if rest.None? then None else Some([d[..n]] + rest.value)
  }

  /** A prefix option has room and announces 64 bits; an MTU lies between 1280 and 65535. */
  predicate Fine(o: Bytes) {
    && |o| >= 8
    && (o[0] == OPT_PREFIX ==> |o| >= 32 && o[2] == 64)
    && (o[0] == OPT_MTU ==> 1280 <= Num32(Word32At(o, 4)) <= 65535)
  }

  predicate IsPrefix(o: Bytes) {
    |o| >= 32 && o[0] == OPT_PREFIX
  }

  /** No prefix option follows another that names a server. */
  ghost predicate OneServer(os: seq<Bytes>) {
    forall i, j :: 0 <= i < j < |os| && IsPrefix(os[i]) && IsPrefix(os[j]) ==> Word32At(os[i], 20) == ZERO32
  }

  /** Options that may follow when `server` is known, zero if none is. */
  ghost predicate InOrder(os: seq<Bytes>, server: W32) {
    && (forall i :: 0 <= i < |os| ==> Fine(os[i])) && OneServer(os)
    && (server != ZERO32 ==> forall i :: 0 <= i < |os| ==> !IsPrefix(os[i]))
  }

  /** The walk succeeds if and only if the options can be listed, each is fine, and one server at most is named. */
  lemma {:induction false} WalkExact(d: Bytes, w: Walk)
    requires w.ok
    ensures WalkOptions(d, w).ok <==> Listed(d).Some? && InOrder(Listed(d).value, w.addr.server)
    decreases |d|
  {
    hide ReadOption, Fine, IsPrefix, InOrder, Word32At;
    if |d| < 8 {
      NoneInOrder(w.addr.server);
    } else if d[1] != 0 && |d| >= 8 * d[1] as nat {
      var n := 8 * d[1] as nat;
      var w', rest := ReadOption(d, w), Listed(d[n..]);
      FirstOption(d, w);
      if w'.ok {
        WalkExact(d[n..], w');
      }
      if rest.Some? {
        OneMore(d[..n], rest.value, w.addr.server);
      }
    }
  }

  lemma NoneInOrder(server: W32)
    ensures InOrder([], server)
  {
  }

  lemma FirstOption(d: Bytes, w: Walk)
    requires |d| >= 8 && d[1] != 0 && 8 * d[1] as nat <= |d| && w.ok
    ensures var o, r := d[..8 * d[1] as nat], ReadOption(d, w);
            && (r.ok <==> Fine(o) && (IsPrefix(o) ==> w.addr.server == ZERO32))
            && (r.ok ==> r.addr.server == if IsPrefix(o) then Word32At(o, 20) else w.addr.server)
  {
    var o := d[..8 * d[1] as nat];
    assert Word32At(o, 4) == Word32At(d, 4);
    assert |o| >= 32 ==> Word32At(o, 20) == Word32At(d, 20);
  }

  lemma OneMore(o: Bytes, os: seq<Bytes>, server: W32)
    ensures InOrder([o] + os, server) <==>
      Fine(o) && (IsPrefix(o) ==> server == ZERO32) && InOrder(os, if IsPrefix(o) then Word32At(o, 20) else server)
  {
    hide Word32At, Fine;
    var all := [o] + os;
    assert all[0] == o && forall i :: 0 <= i < |os| ==> all[i + 1] == os[i];
    if InOrder(all, server) {
      forall i, j | 0 <= i < j < |os| && IsPrefix(os[i]) && IsPrefix(os[j]) ensures Word32At(os[i], 20) == ZERO32 {
        assert IsPrefix(all[i + 1]) && IsPrefix(all[j + 1]);
      }
      forall i | 0 <= i < |os| ensures Fine(os[i]) && (server != ZERO32 ==> !IsPrefix(os[i])) {
        assert Fine(all[i + 1]);
      }
      forall i | 0 <= i < |os| && IsPrefix(o) && Word32At(o, 20) != ZERO32 ensures !IsPrefix(os[i]) {
        assert all[i + 1] == os[i];
      }
    }
  }

  /** An advertisement is accepted if and only if it carries our nonce and no failure, indicates an origin, is a router
      advertisement to the address solicitations come from with room for a prefix option, all its options are in
      order, and its last prefix option names the solicited server with a valid prefix. */
  lemma AcceptanceExact(host: ByteOrder, p: Packet, server: W32, nonce: Nonce8, addr: Addr, mtu: nat)
    requires WellFormed(p.ip6) && p.auth.Some? && server != ZERO32
    ensures MaintenanceRecv(host, p, server, nonce, addr, mtu).ok <==>
      && p.auth.value == Auth(nonce, false) && p.orig.ip != ZERO32
      && Dst(p.ip6) == TEREDO_RESTRICT && NextHeader(p.ip6) == ICMPV6 && PayloadLength(p.ip6) >= 48
      && p.ip6[40] == 134 && p.ip6[41] == 0
      && var d := p.ip6[56..40 + PayloadLength(p.ip6)];
      && Listed(d).Some? && InOrder(Listed(d).value, ZERO32)
      && var ps := PrefixesIn(d);
      && ps != [] && ps[|ps| - 1].1 == server && IsValidPrefix(host, Normalise(ps[|ps| - 1].0))
  {
    hide IsValidPrefix, WalkOptions, PrefixesIn, WithClient, Normalise, Listed, InOrder;
    if LooksLikeAdvert(p) {
      var d, w := OptionsOf(p.ip6), Walk(true, addr.(server := ZERO32), 0);
      WalkExact(d, w);
      if WalkOptions(d, w).ok {
        WalkTakesLast(d, w);
        ClientPartOnly(WalkOptions(d, w).addr.(prefix := Normalise(WalkOptions(d, w).addr.prefix), flags := ZERO16), p.orig);
      }
    }
  }

  /** An advertisement with given options. */
  function AdvertWith(src: Addr, options: Bytes): (ip6: Bytes)
    requires |options| < 0x8000
  {
    Header(16 + |options|, ICMPV6, 255, src, TEREDO_RESTRICT) + ([134, 0] + seq(14, _ => 0) + options)
  }

  lemma AdvertWithShape(src: Addr, options: Bytes, source: Endpoint, dest: W32, orig: Endpoint, auth: Option<Auth>)
    requires 32 <= |options| < 0x8000 && orig.ip != ZERO32
    ensures var p := Packet(AdvertWith(src, options), source, dest, orig, auth);
            WellFormed(p.ip6) && LooksLikeAdvert(p) && OptionsOf(p.ip6) == options
  {
    hide Header;
    var h, m := Header(16 + |options|, ICMPV6, 255, src, TEREDO_RESTRICT), [134, 0] + seq(14, _ => 0) + options;
    HeaderOf(h, m);
    assert (h + m)[0] == h[0] && (h + m)[40] == m[0] && (h + m)[41] == m[1];
    assert (h + m)[56..] == options;
  }

  const NO_PREFIX: Bytes := [1, 4] + seq(30, _ => 0)

  /** The parser alone can succeed on an advertisement that has no prefix option at all: it then returns the
      leftover prefix. */
  lemma ParserNeedsNoPrefix(host: ByteOrder, src: Addr, source: Endpoint, dest: W32, orig: Endpoint, addr: Addr,
                            mtu: nat)
    requires orig.ip != ZERO32 && IsValidPrefix(host, Normalise(addr.prefix))
    ensures var p := Packet(AdvertWith(src, NO_PREFIX), source, dest, orig, None);
            && WellFormed(p.ip6) && ParseRa(host, p, addr, mtu).ok
            && ParseRa(host, p, addr, mtu).addr.prefix == Normalise(addr.prefix)
  {
    hide AdvertWith, ParseRa, LooksLikeAdvert, OptionsOf, IsValidPrefix, Normalise;
    var p := Packet(AdvertWith(src, NO_PREFIX), source, dest, orig, None);
    AdvertWithShape(src, NO_PREFIX, source, dest, orig, None);
    assert NO_PREFIX[32..] == [];
    ParsesWith(host, p, addr, mtu);
    ParsedFrom(host, p, addr, mtu);
  }
}
