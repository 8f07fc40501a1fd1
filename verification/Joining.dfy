/** A client joins: the exchange with the server as one turn of the maintenance procedure. */
module Joining {
  import opened Net
  import opened Codec
  import opened Packets
  import opened Relay
  import Advert
  import Server
  import Q = Qualification
  import M = Maintenance
  import C = ClientRuns
  import P = Peers

  /** The server's answer as it reaches the maintenance procedure. */
  function Delivered(s: Server.Config, nonce: Nonce8, source: Endpoint, dest: W32): Packet
    requires s.mtu <= 65535
  {
    Q.Advertised(s, nonce, source, s.ip, dest)
  }

  /** The state a client publishes once the server at `s` answered it from `source`. */
  ghost predicate Published(s: Server.Config, source: Endpoint, st: State) {
    && st.up && st.mtu == s.mtu
    && st.addr.(flags := ZERO16) == Q.QualifiedAddress(s, source)
    && M.Masked(st.addr.flags) && MatchesClient(st.addr, source)
  }

  /** The solicitation that carries `nonce` decodes, the server answers it to `source`, and the answer decodes into
      what is delivered. */
  ghost predicate Exchanged(s: Server.Config, nonce: Nonce8, source: Endpoint, dest: W32, stale: Nonce8)
    requires s.mtu <= 65535
  {
    var rs := Decode(Advert.Solicitation(nonce));
    && rs.Some? && (rs.value.auth.Some? ==> |rs.value.auth.value.nonce| == 8)
    && var r := Server.Process(s, Arrived(rs.value, source, s.ip), false, stale);
    && r.Reply? && r.to == source && Decode(r.data).Some?
    && Arrived(Decode(r.data).value, Endpoint(s.ip, TEREDO_PORT), dest) == Delivered(s, nonce, source, dest)
  }

  lemma Answer(s: Server.Config, nonce: Nonce8, source: Endpoint, dest: W32, stale: Nonce8)
    requires 1280 <= s.mtu <= 65535 && Q.Answered(s, source)
    ensures Exchanged(s, nonce, source, dest, stale)
  {
    hide Advert.Solicitation, Decode, Server.Process, Server.AdvertPacket, Advert.MaintenanceRecv, Q.Answer,
      Advert.SolicitPacket;
    Q.QualificationCompletes(LittleEndian, s, nonce, source, dest, stale, TEREDO_RESTRICT, 1280);
    Q.AnswerDecodes(s, nonce, source);
  }

  /** A turn that sends a solicitation and hears the server's answer, after any packets it rejects and before any
      others, publishes the prescribed address; a client that was down announces it last.  The server may have been
      resolved before, or in this very turn. */
  lemma ComesUp(g: M.Config, s: Server.Config, c: M.Core, t: M.Turn, source: Endpoint, dest: W32, stale: Nonce8,
                pre: seq<Packet>, post: seq<Packet>)
    requires M.Sound(g, c) && g.retries > 0 && M.Resolve(c, t.answers).0.server == s.ip && IsGlobalUnicast(s.ip)
    requires 1280 <= s.mtu <= 65535 && Q.Answered(s, source) && IsValidPrefix(g.host, Advert.Normalise(s.prefix))
    requires M.Handed(t.arrivals) && M.Handed(pre)
    requires var nonce := g.nonce(t.deadline, s.ip);
             && t.arrivals == pre + [Delivered(s, nonce, source, dest)] + post
             && M.Listen(g, s.ip, nonce, pre, t.leftover, 1280).Silence?
    ensures Exchanged(s, g.nonce(t.deadline, s.ip), source, dest, stale)
    ensures var (c', told) := M.Step(g, c, t);
            && Published(s, source, c'.state) && c'.server == s.ip && c'.count == 0
            && (!c.state.up ==> told == M.Resolve(c, t.answers).1 + [c'.state] && c'.state.ipv4 == dest)
            && (told == [] ==> c'.state == c.state)
  {
    hide M.Listen, M.Handed, Exchanged, Delivered, IsValidPrefix, IsGlobalUnicast, MatchesClient, Advert.Normalise,
      M.Resolve;
    var nonce := g.nonce(t.deadline, s.ip);
    Somewhere(s.ip);
    Answer(s, nonce, source, dest, stale);
    Heard(g, s, nonce, source, dest, pre, post, t.leftover);
    M.ResolveSound(g, c, t.answers);
    var c1, q := M.Resolve(c, t.answers).0, Q.QualifiedAddress(s, source);
    var h := M.Advertised(q, s.mtu, dest);
    assert M.Hearing(g, c1, t) == h;
    M.SettleSound(g, c1, h, t.flags);
    FlagsAside(q, M.Settle(g, c1, h, t.flags).0.state.addr, source);
  }

  /** The first turn of a client whose resolver names the server: it announces the server while down, then the
      address. */
  lemma FirstJoin(g: M.Config, s: Server.Config, deadline: nat, source: Endpoint, dest: W32, stale: Nonce8, flags: W16,
                  leftover: Addr)
    requires g.retries > 0 && Server.ValidConfig(g.host, s) && Q.Answered(s, source)
    ensures var nonce := g.nonce(deadline, s.ip);
            var t := M.Turn([Some(s.ip)], deadline, [Delivered(s, nonce, source, dest)], flags, leftover);
            && M.Handed(t.arrivals) && Exchanged(s, nonce, source, dest, stale)
            && var (c, told) := M.Step(g, M.START, t);
            && Published(s, source, c.state) && c.server == s.ip && c.state.ipv4 == dest
            && told == [M.START.state.(addr := M.START.state.addr.(server := s.ip)), c.state]
  {
    hide M.Listen, Exchanged, Delivered, IsValidPrefix, IsGlobalUnicast, MatchesClient, Advert.Normalise, Published;
    var nonce := g.nonce(deadline, s.ip);
    var p := Delivered(s, nonce, source, dest);
    var t := M.Turn([Some(s.ip)], deadline, [p], flags, leftover);
    Q.SameOrderQualifies(g.host, s);
    Somewhere(s.ip);
    ForMaintenance(s, nonce, source, dest);
    assert [] + [p] + [] == [p];
    assert M.Listen(g, s.ip, nonce, [], leftover, 1280).Silence? by { NothingHeard(g, s.ip, nonce, leftover); }
    assert M.Resolve(M.START, t.answers).0.server == s.ip;
    ComesUp(g, s, M.START, t, source, dest, stale, [], []);
  }

  /** What the user of the tunnel is given then: one notification, with the address that the server's observation
      prescribes and the server's MTU; local discovery starts with that address if it is configured and can. */
  lemma FirstAddress(env: Env, g: M.Config, s: Server.Config, t: Tunnel, deadline: nat, source: Endpoint, dest: W32,
                     stale: Nonce8, flags: W16, leftover: Addr, ifaces: Option<seq<P.Iface>>)
    requires g.retries > 0 && Server.ValidConfig(g.host, s) && Q.Answered(s, source) && !t.client && !t.state.up
    ensures var c := C.Client(SetClientMode(t, true, true), M.START, false, []);
            var turn := M.Turn([Some(s.ip)], deadline, [Delivered(s, g.nonce(deadline, s.ip), source, dest)], flags,
                               leftover);
            && AllReady(c.tunnel) && C.Allowed(c, C.Maintain(turn, ifaces))
            && var c' := C.Act(env, g, c, C.Maintain(turn, ifaces));
            && Published(s, source, c'.core.state) && c'.tunnel.state == c'.core.state
            && c'.notes == [C.Came(c'.core.state.addr, s.mtu)]
            && C.Discovers(t, c'.core.state, ifaces, c'.tunnel.discovery)
  {
    hide M.Step, M.Handed, Delivered, Exchanged, Q.Answered, IsGlobalUnicast, IsValidPrefix, C.Announce, C.Discovers,
      C.LastAddr;
    var c := C.Client(SetClientMode(t, true, true), M.START, false, []);
    var turn := M.Turn([Some(s.ip)], deadline, [Delivered(s, g.nonce(deadline, s.ip), source, dest)], flags, leftover);
    FirstJoin(g, s, deadline, source, dest, stale, flags, leftover);
    var (core, states) := M.Step(g, M.START, turn);
    var c0 := c.(core := core);
    assert C.Informed(c0.tunnel, c0.notes) by { assert C.LastAddr([]) == None by { NoAddr(); } }
    C.AnnounceSplit(c0, states, ifaces);
    C.AnnounceOne(g, c0, states[0], ifaces);
    assert states[1..] == [states[1]];
    var c1 := C.Announce(c0, [states[0]], ifaces);
    C.AnnounceOne(g, c1, states[1], ifaces);
    assert c1.notes == [] && c1.notes + [C.Came(core.state.addr, s.mtu)] == [C.Came(core.state.addr, s.mtu)];
    SameMask(t, c1.tunnel, core.state, ifaces, C.Announce(c1, [states[1]], ifaces).tunnel.discovery);
  }

  lemma NoAddr()
    ensures C.LastAddr([]) == None
  {
  }

  lemma SameMask(t: Tunnel, t': Tunnel, s: State, ifaces: Option<seq<P.Iface>>, d: Option<Discovery>)
    requires t'.netmask == t.netmask && C.Discovers(t', s, ifaces, d)
    ensures C.Discovers(t, s, ifaces, d)
  {
  }

  lemma NothingHeard(g: M.Config, server: W32, nonce: Nonce8, addr: Addr)
    ensures M.Handed([]) && M.Listen(g, server, nonce, [], addr, 1280) == M.Silence
  {
  }

  lemma ForMaintenance(s: Server.Config, nonce: Nonce8, source: Endpoint, dest: W32)
    requires 1280 <= s.mtu <= 65535 && Q.Answered(s, source)
    ensures M.Handed([Delivered(s, nonce, source, dest)])
  {
    hide Server.AdvertPacket, Advert.MaintenanceRecv, IsValidPrefix, Advert.Normalise;
    Q.ClientAccepts(LittleEndian, s, nonce, source, s.ip, dest, TEREDO_RESTRICT, 1280);
  }

  lemma Somewhere(ip: W32)
    requires IsGlobalUnicast(ip)
    ensures ip != ZERO32
  {
  }

  lemma FlagsAside(q: Addr, a: Addr, e: Endpoint)
    requires MatchesClient(q, e) && a.(flags := ZERO16) == q.(flags := ZERO16)
    ensures MatchesClient(a, e)
  {
  }

  lemma Heard(g: M.Config, s: Server.Config, nonce: Nonce8, source: Endpoint, dest: W32, pre: seq<Packet>,
              post: seq<Packet>, leftover: Addr)
    requires 1280 <= s.mtu <= 65535 && Q.Answered(s, source) && IsValidPrefix(g.host, Advert.Normalise(s.prefix))
    requires M.Handed(pre + [Delivered(s, nonce, source, dest)] + post) && M.Handed(pre)
    requires M.Listen(g, s.ip, nonce, pre, leftover, 1280).Silence?
    ensures M.Listen(g, s.ip, nonce, pre + [Delivered(s, nonce, source, dest)] + post, leftover, 1280)
         == M.Advertised(Q.QualifiedAddress(s, source), s.mtu, dest)
  {
    hide M.Listen, M.Handed, Advert.MaintenanceRecv, Server.AdvertPacket, Q.QualifiedAddress, IsValidPrefix;
    var a, m := M.ListenSkips(g, s.ip, nonce, pre, Delivered(s, nonce, source, dest), post, leftover, 1280);
    Q.ClientAccepts(g.host, s, nonce, source, s.ip, dest, a, m);
  }

  // ---- A rejected advertisement leaves its MTU behind ----

  const HERE := Server.Config(W32(8, 8, 8, 8), W32(8, 8, 8, 9), TEREDO_PREFIX, 1280)
  const ELSEWHERE := HERE.(ip := W32(9, 9, 9, 9), mtu := 9000)

  /** An advertisement of HERE without MTU option. */
  function Bare(nonce: Nonce8, source: Endpoint, dest: W32): Packet {
    Packet(Advert.AdvertWith(TEREDO_RESTRICT, Server.PrefixOption(HERE)), Endpoint(HERE.ip, TEREDO_PORT), dest, source,
           Some(Auth(nonce, false)))
  }

  /** A client of HERE that first hears an advertisement of ELSEWHERE, and rejects it, then accepts one of HERE
      without MTU option: it takes the MTU of ELSEWHERE. */
  lemma RejectedMtuStays(g: M.Config, nonce: Nonce8, source: Endpoint, dest: W32, addr: Addr)
    requires source.ip != ZERO32
    ensures var arrivals := [Delivered(ELSEWHERE, nonce, source, dest), Bare(nonce, source, dest)];
            && M.Handed(arrivals)
            && M.Listen(g, HERE.ip, nonce, arrivals[..1], addr, 1280) == M.Silence
            && M.Listen(g, HERE.ip, nonce, arrivals, addr, 1280)
               == M.Advertised(Q.QualifiedAddress(HERE, source), 9000, dest)
  {
    hide Advert.MaintenanceRecv, Delivered, Bare, Q.QualifiedAddress, Advert.IsMaintenance;
    var p, q := Delivered(ELSEWHERE, nonce, source, dest), Bare(nonce, source, dest);
    var r := Rejected(g.host, nonce, source, dest, addr);
    AcceptedBare(g.host, nonce, source, dest, r.addr, r.mtu);
    var arrivals := [p, q];
    assert arrivals[1..] == [q] && arrivals[..1] == [p] && [p][1..] == [];
    assert M.Handed(arrivals) && M.Handed([q]) && M.Handed([p]);
    assert M.Listen(g, HERE.ip, nonce, arrivals, addr, 1280) == M.Listen(g, HERE.ip, nonce, [q], r.addr, r.mtu);
  }

  lemma Rejected(host: ByteOrder, nonce: Nonce8, source: Endpoint, dest: W32, addr: Addr) returns (r: Advert.Parsed)
    requires source.ip != ZERO32
    ensures var p := Delivered(ELSEWHERE, nonce, source, dest);
            && WellFormed(p.ip6) && Advert.IsMaintenance(p)
            && r == Advert.MaintenanceRecv(host, p, HERE.ip, nonce, addr, 1280)
            && !r.ok && r.mtu == 9000
  {
    hide Server.AdvertPacket, Advert.WalkOptions;
    Q.AdvertShape(ELSEWHERE);
    Q.OptionsRead(ELSEWHERE, addr.(server := ZERO32));
    r := Advert.MaintenanceRecv(host, Delivered(ELSEWHERE, nonce, source, dest), HERE.ip, nonce, addr, 1280);
  }

  lemma AcceptedBare(host: ByteOrder, nonce: Nonce8, source: Endpoint, dest: W32, addr: Addr, mtu: nat)
    requires source.ip != ZERO32
    ensures var q := Bare(nonce, source, dest);
            && WellFormed(q.ip6) && Advert.IsMaintenance(q) && q.dest == dest
            && Advert.MaintenanceRecv(host, q, HERE.ip, nonce, addr, mtu)
               == Advert.Parsed(true, Q.QualifiedAddress(HERE, source), mtu)
  {
    hide Advert.AdvertWith, Advert.OptionsOf, Server.PrefixOption;
    var o := Server.PrefixOption(HERE);
    Advert.AdvertWithShape(TEREDO_RESTRICT, o, Endpoint(HERE.ip, TEREDO_PORT), dest, source, Some(Auth(nonce, false)));
    Q.PrefixOptionFields(HERE, []);
    assert o + [] == o;
    var w := Advert.Walk(true, addr.(server := ZERO32), 0);
    assert Advert.WalkOptions(o, w) == Advert.WalkOptions(o[32..], Advert.ReadOption(o, w));
  }
}
