/** The rate limits of section 5.2.6 of RFC 4380 as an observer of a tunnel's datagrams sees them. */
module Rates {
  import opened Net
  import opened Packets
  import opened Peers
  import opened PeerCache
  import opened Relay
  import opened RelayLaws
  import opened RelayRuns
  import opened OneEntry
  import Advert

  predicate HasControl(outs: seq<Out>) {
    exists o :: o in outs && o.Send? && o.purpose == Control
  }

  /** The event sends bubbles because of `k`: to connect to it, or in answer to its local discovery bubble. */
  predicate SendsBubble(t: Tunnel, e: RelayRuns.Event, outs: seq<Out>, k: Addr) {
    && HasControl(outs) && k.prefix == t.state.addr.prefix
    && match e
       case Tx(_, data) => |data| >= 40 && Dst(data) == k
       case Rx(_, p) =>
         && WellFormed(p.ip6) && Src(p.ip6) == k && IsLocal(t, p) && IsDiscoveryBubble(p)
         && !(t.client && FromServer(t, p))
       case _ => false
  }

  /** The event sends a ping to `k`: to connect to it, or because of an unexpected packet from it. */
  predicate SendsPing(t: Tunnel, e: RelayRuns.Event, outs: seq<Out>, k: Addr) {
    && HasControl(outs) && k.prefix != t.state.addr.prefix
    && match e
       case Tx(_, data) => |data| >= 40 && Dst(data) == k
       case Rx(_, p) => WellFormed(p.ip6) && Src(p.ip6) == k && !(t.client && FromServer(t, p))
       case _ => false
  }

  // ---- One peer ----

  /** The record of grants after a step: the former one, with this moment if something was sent. */
  predicate Grown(before: seq<nat>, after: seq<nat>, now: nat, sent: bool) {
    after == before + [now] || (after == before && !sent)
  }

  /** The count of bubbles starts afresh: new entry, counter at zero, or a peer that becomes local. */
  predicate FreshBubbles(p: Option<Peer>, q: Peer) {
    p.None? || q.bubbles == Set(0) || (p.value.local == Set(false) && q.local == Set(true))
  }

  predicate FreshPings(p: Option<Peer>, q: Peer) {
    p.None? || q.pings == Set(0)
  }

  /** How an entry's records may change in a step. */
  predicate Moves(p: Option<Peer>, q: Peer, now: nat, bubble: bool, ping: bool) {
    && Grown(if FreshBubbles(p, q) then [] else p.value.log.bubbles, q.log.bubbles, now, bubble)
    && Grown(if FreshPings(p, q) then [] else p.value.log.pings, q.log.pings, now, ping)
  }

  function EntryOf(t: Tunnel, k: Addr): Option<Peer> {
    if k in t.list.peers then Some(t.list.peers[k]) else None
  }

  /** Both records are those that the counters tell. */
  ghost predicate Counted(p: Peer, clock: nat) {
    BubbleLaw(p, clock) && PingLaw(p, clock)
  }

  lemma StillMoves(p: Peer, q: Peer, clock: nat, now: nat)
    requires Counted(p, clock) && q.log.bubbles == p.log.bubbles && q.log.pings == p.log.pings
    requires q.bubbles == p.bubbles && q.pings == p.pings && q.local == p.local
    ensures Moves(Some(p), q, now, false, false)
  {
    hide Spaced;
  }

  lemma ProbeMoves(p: Peer, created: bool, data: Bytes, now: nat, sent: bool)
    requires Counted(p, now) && PingReady(p, now) && p.pings.Set?
    requires sent ==> TxProbe(p, created, data, now).0 == Yes
    ensures Moves(Some(p), TxProbe(p, created, data, now).1, now, false, sent)
    ensures p.log.bubbles == p.log.pings == [] ==> Moves(None, TxProbe(p, created, data, now).1, now, false, sent)
  {
    hide Spaced;
  }

  lemma BubbleMoves(p: Peer, data: Bytes, now: nat, sent: bool)
    requires Counted(p, now) && BubbleReady(p, now)
    requires sent ==> TxBubble(p, data, now).0 == Yes
    ensures Moves(Some(p), TxBubble(p, data, now).1, now, sent, false)
    ensures p.log.bubbles == p.log.pings == [] ==> Moves(None, TxBubble(p, data, now).1, now, sent, false)
  {
    hide Spaced;
  }

  // ---- Transmission ----

  /** A step's dealings with the records of `k`. */
  ghost predicate Tracks(t: Tunnel, e: RelayRuns.Event, r: Tunnel, outs: seq<Out>, now: nat, k: Addr) {
    var bubble, ping := SendsBubble(t, e, outs, k), SendsPing(t, e, outs, k);
    if k in r.list.peers then Moves(EntryOf(t, k), r.list.peers[k], now, bubble, ping) else !bubble && !ping
  }

  lemma RefusalIsQuiet(t: Tunnel, now: nat, code: byte, packet: Bytes)
    ensures !HasControl(Refuse(t, now, code, packet).outs) && Refuse(t, now, code, packet).tunnel.list == t.list
  {
    hide Limit;
  }

  /** What was filed for `k`, whatever was sent along. */
  lemma FiledTracks(t: Tunnel, io: Io, data: Bytes, list: Cache<Peer>, q: Peer, outs: seq<Out>)
    requires |data| >= 40
    requires var k := Dst(data);
             var sent := HasControl(outs);
             Moves(EntryOf(t, k), q, io.now, sent && k.prefix == t.state.addr.prefix,
                   sent && k.prefix != t.state.addr.prefix)
    ensures Tracks(t, Tx(io, data), Put(t, list, Dst(data), q, io.now), outs, io.now, Dst(data))
  {
    hide Moves, HasControl;
  }

  lemma UntrustedTracks(env: Env, t: Tunnel, io: Io, data: Bytes, list: Cache<Peer>, p: Peer, created: bool)
    requires Connectable(t, io.now, data, p) && Counted(p, io.now)
    requires if created then Dst(data) !in t.list.peers && p.log.bubbles == p.log.pings == []
             else Dst(data) in t.list.peers && t.list.peers[Dst(data)] == p
    ensures var r := TransmitUntrusted(env, t, io, data, list, p, created);
            Tracks(t, Tx(io, data), r.tunnel, r.outs, io.now, Dst(data))
  {
    hide TxProbe, TxBubble, PunchHole, Multicast, Ping, Bubble, IsFresh, Moves, Refuse, Put, Counted, HasControl, Tracks;
    var k, r := Dst(data), TransmitUntrusted(env, t, io, data, list, p, created);
    var sent := HasControl(r.outs);
    if k.prefix != t.state.addr.prefix {
      var (grant, q) := TxProbe(p, created, data, io.now);
      var t' := Put(t, list, k, q, io.now);
      RefusalIsQuiet(t', io.now, UNREACH_ADDR, data);
      assert sent ==> grant == Yes by { NoneIsQuiet(); }
      assert p.pings.Set? by { ReadyIsSet(p, io.now); }
      ProbeMoves(p, created, data, io.now, sent);
      FiledTracks(t, io, data, list, q, r.outs);
      SameRecords(t, Tx(io, data), t', r.tunnel, r.outs, io.now, k);
    } else {
      var local := p.local.v && IsFresh(p, io.now);
      var p0 := if !local && created then p.(mapping := Set(ClientMapping(k))) else p;
      var (grant, q) := TxBubble(p0, data, io.now);
      var t' := Put(t, list, k, q, io.now);
      RefusalIsQuiet(t', io.now, UNREACH_ADDR, data);
      assert sent ==> grant == Yes by { NoneIsQuiet(); }
      assert Counted(p0, io.now) by { MappingAside(p, io.now, p0.mapping); }
      BubbleMoves(p0, data, io.now, sent);
      assert Moves(EntryOf(t, k), q, io.now, sent, false) by { MappingAsideMoves(p, p0, q, io.now, sent); }
      FiledTracks(t, io, data, list, q, r.outs);
      SameRecords(t, Tx(io, data), t', r.tunnel, r.outs, io.now, k);
    }
  }

  lemma NoneIsQuiet()
    ensures !HasControl([])
  {
  }

  lemma ReadyIsSet(p: Peer, now: nat)
    requires PingReady(p, now)
    ensures p.pings.Set?
  {
  }

  lemma MappingAside(p: Peer, now: nat, m: Field<Endpoint>)
    requires Counted(p, now)
    ensures Counted(p.(mapping := m), now)
  {
    hide Spaced;
  }

  lemma MappingAsideMoves(p: Peer, p0: Peer, q: Peer, now: nat, sent: bool)
    requires p0 == p.(mapping := p0.mapping) && Moves(Some(p0), q, now, sent, false)
    ensures Moves(Some(p), q, now, sent, false)
  {
  }

  lemma SameRecords(t: Tunnel, e: RelayRuns.Event, t': Tunnel, r: Tunnel, outs: seq<Out>, now: nat, k: Addr)
    requires Tracks(t, e, t', outs, now, k) && r.list == t'.list
    ensures Tracks(t, e, r, outs, now, k)
  {
    hide Moves;
  }

  /** The laws of a listed peer, at a later moment. */
  lemma CountedAt(env: Env, seen: set<Reception>, t: Tunnel, k: Addr, now: nat)
    requires Inv(env, seen, t) && k in t.list.peers && t.clock <= now
    ensures Counted(t.list.peers[k], now)
  {
    hide Vouches, Ready, Filed, Total, Spaced;
    assert Good(env, seen, ContextOf(t), k, t.list.peers[k]);
  }

  lemma QuietTracks(t: Tunnel, e: RelayRuns.Event, r: Tunnel, outs: seq<Out>, now: nat, k: Addr)
    requires !SendsBubble(t, e, outs, k) && !SendsPing(t, e, outs, k)
    requires k in r.list.peers ==>
      && k in t.list.peers && Counted(t.list.peers[k], now)
      && var p, q := t.list.peers[k], r.list.peers[k];
      q.log.bubbles == p.log.bubbles && q.log.pings == p.log.pings && q.bubbles == p.bubbles && q.pings == p.pings
      && q.local == p.local
    ensures Tracks(t, e, r, outs, now, k)
  {
    hide Counted, Moves, SendsBubble, SendsPing;
    if k in r.list.peers {
      StillMoves(t.list.peers[k], r.list.peers[k], now, now);
    }
  }

  lemma BlankCounted(now: nat)
    ensures Counted(Begin(BLANK), now) && Begin(BLANK).log.bubbles == Begin(BLANK).log.pings == []
  {
  }

  lemma TxTracks(env: Env, seen: set<Reception>, t: Tunnel, io: Io, data: Bytes)
    requires Inv(env, seen, t) && AllReady(t) && t.clock <= io.now && |data| >= 40
    ensures var r := Transmit(env, t, io, data);
            Tracks(t, Tx(io, data), r.tunnel, r.outs, io.now, Dst(data))
  {
    hide Inv, TransmitUntrusted, Refuse, Touch, Tracks, Counted, Moves, Begin, IsGlobalUnicast;
    var k, r := Dst(data), Transmit(env, t, io, data);
    RefusalIsQuiet(t, io.now, UNREACH_ADDR, data);
    RefusalIsQuiet(t, io.now, UNREACH_ADMIN, data);
    TouchPeers(t.list, k);
    BlankCounted(io.now);
    if k in t.list.peers {
      CountedAt(env, seen, t, k, io.now);
    }
    var (list, outcome) := Lookup(t.list, k, true, io.memory, BLANK);
    var p := if outcome == Created then Begin(BLANK) else if outcome == Hit then list.peers[k] else BLANK;
    if r.tunnel.list == t.list && !HasControl(r.outs) {
      QuietTracks(t, Tx(io, data), r.tunnel, r.outs, io.now, k);
    } else if outcome == Hit && p.trusted.v && IsFresh(p, io.now) {
      QuietTracks(t, Tx(io, data), r.tunnel, r.outs, io.now, k);
    } else {
      assert Connectable(t, io.now, data, p) by { BeginReady(t, io.now, data); }
      UntrustedTracks(env, t, io, data, list, p, outcome == Created);
    }
  }

  lemma BeginReady(t: Tunnel, now: nat, data: Bytes)
    requires |data| >= 40
    ensures Connectable(t, now, data, Begin(BLANK))
  {
  }

  // ---- Reception ----

  predicate IsDiscovery(t: Tunnel, p: Packet)
    requires WellFormed(p.ip6)
  {
    IsLocal(t, p) && IsDiscoveryBubble(p)
  }

  /** What a reception proper does with the records of the packet's source. */
  ghost predicate Notes(t: Tunnel, io: Io, p: Packet, r: Result)
    requires WellFormed(p.ip6)
  {
    var k, sent := Src(p.ip6), HasControl(r.outs);
    if k in r.tunnel.list.peers then
      Moves(EntryOf(t, k), r.tunnel.list.peers[k], io.now, sent && IsDiscovery(t, p),
            sent && k.prefix != t.state.addr.prefix)
    else !sent
  }

  lemma {:induction false} EmitIsPayload(q: seq<Item>, m: Endpoint)
    ensures !HasControl(Emit(q, m))
  {
    if q != [] {
      EmitIsPayload(q[1..], m);
    }
  }

  /** Acceptance resets both counters and sends no control datagram. */
  lemma AcceptNotes(t: Tunnel, io: Io, p: Packet, list: Cache<Peer>, q: Peer, tail: seq<Out>)
    requires WellFormed(p.ip6) && (tail == [] || tail == [Deliver(Inner(p))])
    ensures Notes(t, io, p, Result(Put(t, list, Src(p.ip6), Predecap(q, io.now), io.now),
                                   Emit(q.queue, p.source) + tail, true))
  {
    hide Emit, Inner, IsDiscovery;
    EmitIsPayload(q.queue, p.source);
    var outs := Emit(q.queue, p.source) + tail;
    assert forall o :: o in outs ==> o in Emit(q.queue, p.source) || o in tail;
    ResetMoves(EntryOf(t, Src(p.ip6)), Predecap(q, io.now), io.now);
  }

  lemma ResetMoves(p: Option<Peer>, q: Peer, now: nat)
    requires q.bubbles == q.pings == Set(0) && q.log.bubbles == q.log.pings == []
    ensures Moves(p, q, now, false, false)
  {
  }

  lemma NothingNotes(env: Env, seen: set<Reception>, t: Tunnel, io: Io, p: Packet, t': Tunnel)
    requires Inv(env, seen, t) && t.clock <= io.now && WellFormed(p.ip6) && t'.list.peers == t.list.peers
    ensures Notes(t, io, p, Result(t', [], true))
  {
    hide Inv, Counted, Moves, IsDiscovery;
    NoneIsQuiet();
    var k := Src(p.ip6);
    if k in t.list.peers {
      CountedAt(env, seen, t, k, io.now);
      StillMoves(t.list.peers[k], t.list.peers[k], io.now, io.now);
    }
  }

  lemma TeredoNotes(env: Env, seen: set<Reception>, t: Tunnel, io: Io, p: Packet, list0: Cache<Peer>, hit: bool)
    requires Inv(env, seen, t) && t.clock <= io.now
    requires WellFormed(p.ip6) && (hit <==> Src(p.ip6) in list0.peers) && list0.peers == t.list.peers
    requires hit ==> list0.peers[Src(p.ip6)].local.Set? && list0.peers[Src(p.ip6)].mapping.Set?
    ensures Notes(t, io, p, ReceiveTeredo(env, t, io, p, list0, hit))
  {
    hide Inv, Judge, Emit, Inner, IsLocal, Noted, Notes, Predecap, Put, Touch, Insert;
    var k := Src(p.ip6);
    var verdict := Judge(env, t, io, if hit then Some(list0.peers[k]) else None, p);
    var (list, outcome) := if hit then (list0, Hit) else Lookup(list0, k, true, io.memory, BLANK);
    NothingNotes(env, seen, t, io, p, t.(list := list0, clock := io.now));
    if verdict.Trust? && (hit || t.client) && outcome != Missing {
      var p0 := if hit then list.peers[k] else BLANK.(local := Set(IsLocal(t, p)));
      AcceptNotes(t, io, p, list, Accept(p0, p.source, verdict.voucher),
                  if IsBubble(p.ip6) then [] else [Deliver(Inner(p))]);
    }
  }

  lemma NativeMoves(p: Peer, i: Item, now: nat, sent: bool)
    requires Counted(p, now) && PingReady(p, now)
    ensures var q := Enqueue(p, i).(lastRx := Set(now));
            && PingReady(q, now)
            && var (grant, q') := CountPing(q, now);
            (sent ==> grant == Yes) ==>
              Moves(Some(p), q', now, false, sent)
              && (p.log.bubbles == p.log.pings == [] ==> Moves(None, q', now, false, sent))
  {
    hide Spaced, Enqueue;
  }

  lemma NativeNotes(env: Env, seen: set<Reception>, t: Tunnel, io: Io, p: Packet, list0: Cache<Peer>)
    requires Inv(env, seen, t) && t.clock <= io.now
    requires WellFormed(p.ip6) && list0.peers == t.list.peers && Src(p.ip6).prefix != t.state.addr.prefix
    requires Src(p.ip6) in list0.peers ==> PingReady(list0.peers[Src(p.ip6)], io.now)
    ensures Notes(t, io, p, ReceiveNative(env, t, io, p, list0))
  {
    hide Inv, Ping, Inner, CountPing, Enqueue, Begin, Moves, Counted, Touch, IsDiscovery, HasControl;
    Foreign(t, p);
    var k, i := Src(p.ip6), Item(Inner(p), p.source, true);
    var (list, outcome) := if k in list0.peers then (list0, Hit) else Lookup(list0, k, true, io.memory, BLANK);
    if outcome == Missing {
      NothingNotes(env, seen, t, io, p, t.(list := list, clock := io.now));
    } else {
      NewNative(io.now);
      if k in t.list.peers {
        CountedAt(env, seen, t, k, io.now);
      }
      NoneIsQuiet();
      var p0 := if k in list0.peers then list0.peers[k] else Begin(BLANK).(mapping := Set(NOWHERE));
      NativeMoves(p0, i, io.now, HasControl(ReceiveNative(env, t, io, p, list0).outs));
    }
  }

  lemma NewNative(now: nat)
    ensures var p := Begin(BLANK).(mapping := Set(NOWHERE));
            Counted(p, now) && PingReady(p, now) && p.log.bubbles == p.log.pings == []
  {
  }

  lemma Foreign(t: Tunnel, p: Packet)
    requires WellFormed(p.ip6) && Src(p.ip6).prefix != t.state.addr.prefix
    ensures !IsDiscovery(t, p)
  {
    hide SameUnder, IsDiscovered;
  }

  lemma DiscoveryMoves(p0: Peer, source: Endpoint, v: Voucher, now: nat, sent: bool)
    requires p0.local.Set? && PingLaw(p0, now) && (p0.local.v ==> BubbleLaw(p0, now))
    ensures var p1 := if !p0.local.v then ResetBubbles(p0) else p0;
            var p2 := p1.(mapping := Set(source), local := Set(true), lastRx := Set(now),
                          log := p1.log.(voucher := Some(v)));
            && BubbleReady(p2, now)
            && var (grant, q) := CountBubble(p2, now);
            (sent ==> grant == Yes) ==>
              Moves(Some(p0), q, now, sent, false)
              && (!p0.local.v && p0.log.pings == [] ==> Moves(None, q, now, sent, false))
  {
    hide Spaced;
  }

  lemma NewLocal(now: nat)
    ensures var p := BLANK.(trusted := Set(false), local := Set(false));
            PingLaw(p, now) && p.log.pings == []
  {
  }

  lemma DiscoveryNotes(env: Env, seen: set<Reception>, t: Tunnel, io: Io, p: Packet, list0: Cache<Peer>)
    requires Inv(env, seen, t) && t.clock <= io.now && WellFormed(p.ip6) && IsDiscovery(t, p)
    requires list0.peers == t.list.peers
    requires Src(p.ip6) in list0.peers ==>
      list0.peers[Src(p.ip6)].local.Set? && BubbleReady(list0.peers[Src(p.ip6)], io.now)
    ensures IsLocal(t, p) && Notes(t, io, p, ReceiveDiscovery(t, io, p, list0))
  {
    hide Inv, Bubble, CountBubble, ResetBubbles, Moves, PingLaw, BubbleLaw, Touch, IsNeighbour, IsDiscoveryBubble,
      HasControl, Noted;
    var k := Src(p.ip6);
    assert k.prefix == t.state.addr.prefix by { LocalPrefix(t, p); }
    var (list, outcome) := if k in list0.peers then (list0, Hit) else Lookup(list0, k, true, io.memory, BLANK);
    if outcome == Missing {
      NothingNotes(env, seen, t, io, p, t.(list := list, clock := io.now));
    } else {
      NewLocal(io.now);
      NoneIsQuiet();
      if k in t.list.peers {
        CountedAt(env, seen, t, k, io.now);
      }
      var p0 := if k in list0.peers then list0.peers[k] else BLANK.(trusted := Set(false), local := Set(false));
      DiscoveryMoves(p0, p.source, Voucher(ByDiscovery, Noted(t, io, p)), io.now,
                     HasControl(ReceiveDiscovery(t, io, p, list0).outs));
    }
  }

  lemma LocalPrefix(t: Tunnel, p: Packet)
    requires WellFormed(p.ip6) && IsLocal(t, p)
    ensures Src(p.ip6).prefix == t.state.addr.prefix
  {
    hide SameUnder, IsDiscovered;
  }

  lemma FromNotes(env: Env, seen: set<Reception>, t: Tunnel, io: Io, p: Packet)
    requires Inv(env, seen, t) && AllReady(t) && t.clock <= io.now && WellFormed(p.ip6)
    requires if t.client then t.state.up else Src(p.ip6).prefix == t.state.addr.prefix
    ensures Notes(t, io, p, ReceiveFrom(env, t, io, p))
  {
    hide Inv, ReceiveTeredo, ReceiveNative, ReceiveDiscovery, Predecap, Emit, Inner, CheckPing, IsDiscoveryBubble,
      IsNeighbour, Touch, Notes, Put, Noted;
    var k := Src(p.ip6);
    TouchPeers(t.list, k);
    var (list, outcome) := Lookup(t.list, k, false, io.memory, BLANK);
    assert list.peers == t.list.peers && (outcome == Hit <==> k in t.list.peers);
    if IsLocal(t, p) && IsDiscoveryBubble(p) {
      DiscoveryNotes(env, seen, t, io, p, list);
    } else if IsMulticast(Dst(p.ip6)) {
      NothingNotes(env, seen, t, io, p, t.(list := list, clock := io.now));
    } else if outcome == Hit && list.peers[k].trusted.v && p.source == list.peers[k].mapping.v {
      AcceptNotes(t, io, p, list, list.peers[k], [Deliver(Inner(p))]);
    } else if outcome == Hit && t.client && CheckPing(env, io.wall, p.ip6) {
      var q := Accept(list.peers[k], p.source, Some(Voucher(ByPing, Noted(t, io, p))));
      AcceptNotes(t, io, p, list, q, []);
      assert Emit(q.queue, p.source) + [] == Emit(q.queue, p.source);
    } else if k.prefix == t.state.addr.prefix {
      TeredoNotes(env, seen, t, io, p, list, outcome == Hit);
    } else {
      NativeNotes(env, seen, t, io, p, list);
    }
  }

  lemma MovesLess(p: Option<Peer>, q: Peer, now: nat, b: bool, b': bool, g: bool, g': bool)
    requires Moves(p, q, now, b, g) && (b' ==> b) && (g' ==> g)
    ensures Moves(p, q, now, b', g')
  {
  }

  /** What is noted of a reception is what its event tells, whatever the reply to the server before it. */
  lemma NotesTrack(t: Tunnel, io: Io, p: Packet, r: Result, outs: seq<Out>)
    requires WellFormed(p.ip6) && Notes(t, io, p, r)
    requires (t.client && FromServer(t, p)) || outs == r.outs
    ensures Tracks(t, Rx(io, p), r.tunnel, outs, io.now, Src(p.ip6))
  {
    hide Moves, HasControl, IsDiscoveryBubble, IsNeighbour;
    var k, e, sent := Src(p.ip6), Rx(io, p), HasControl(r.outs);
    if k in r.tunnel.list.peers {
      MovesLess(EntryOf(t, k), r.tunnel.list.peers[k], io.now, sent && IsDiscovery(t, p), SendsBubble(t, e, outs, k),
                sent && k.prefix != t.state.addr.prefix, SendsPing(t, e, outs, k));
    }
  }

  lemma RxTracks(env: Env, seen: set<Reception>, t: Tunnel, io: Io, p: Packet)
    requires Inv(env, seen, t) && AllReady(t) && t.clock <= io.now && WellFormed(p.ip6)
    ensures var r := Receive(env, t, io, p);
            Tracks(t, Rx(io, p), r.tunnel, r.outs, io.now, Src(p.ip6))
  {
    hide Inv, AllReady, ReceiveFrom, ReplyBubble, BubbleOrigin, Notes, Tracks, IsBubble, IsLinkLocal, Advert.IsMaintenance,
      FromServer;
    var r := Receive(env, t, io, p);
    NothingNotes(env, seen, t, io, p, t);
    NotesTrack(t, io, p, Result(t, [], true), []);
    if !t.client {
      if Src(p.ip6).prefix == t.state.addr.prefix {
        FromNotes(env, seen, t, io, p);
        NotesTrack(t, io, p, ReceiveFrom(env, t, io, p), r.outs);
      }
    } else if t.state.up && !Advert.IsMaintenance(p) {
      var reply := FromServer(t, p) && BubbleOrigin(t, p).ip != ZERO32;
      if (reply && IsBubble(p.ip6)) || IsLinkLocal(Src(p.ip6)) {
        NotesTrack(t, io, p, Result(t, [], true), r.outs);
      } else {
        FromNotes(env, seen, t, io, p);
        var f := ReceiveFrom(env, t, io, p);
        assert [] + f.outs == f.outs;
        NotesTrack(t, io, p, f, r.outs);
      }
    }
  }

  // ---- Any event, any peer ----

  function When(e: RelayRuns.Event): nat {
    if e.Tx? || e.Rx? then e.io.now else 0
  }

  /** An event that is not about `k` leaves its records alone. */
  lemma OtherTracks(env: Env, seen: set<Reception>, t: Tunnel, e: RelayRuns.Event, k: Addr)
    requires Inv(env, seen, t) && AllReady(t) && Timely(t, e)
    requires e.Tx? ==> Dst(e.data) != k
    requires e.Rx? ==> WellFormed(e.packet.ip6) ==> Src(e.packet.ip6) != k
    ensures var (t', outs) := RelayRuns.Step(env, t, e);
            Tracks(t, e, t', outs, When(e), k)
  {
    hide Inv, AllReady, Counted, Transmit, ReceiveFrom, ReplyBubble, BubbleOrigin, IsLocal, IsDiscoveryBubble, HasControl,
      Tracks, IsLinkLocal, IsBubble, Advert.IsMaintenance;
    var (t', outs) := RelayRuns.Step(env, t, e);
    if e.Tx? {
      TxOnlyAt(env, t, e.io, e.data);
    } else if e.Rx? && WellFormed(e.packet.ip6) {
      if if t.client then t.state.up else Src(e.packet.ip6).prefix == t.state.addr.prefix {
        RxOnlyAt(env, t, e.io, e.packet);
      }
    }
    if k in t'.list.peers {
      assert k in t.list.peers && t'.list.peers[k] == t.list.peers[k];
      CountedAt(env, seen, t, k, if e.Tx? || e.Rx? then When(e) else t.clock);
    }
    QuietNow(t, e, t', outs, k, if e.Tx? || e.Rx? then When(e) else t.clock);
  }

  lemma QuietNow(t: Tunnel, e: RelayRuns.Event, r: Tunnel, outs: seq<Out>, k: Addr, clock: nat)
    requires !SendsBubble(t, e, outs, k) && !SendsPing(t, e, outs, k)
    requires k in r.list.peers ==>
               k in t.list.peers && r.list.peers[k] == t.list.peers[k] && Counted(t.list.peers[k], clock)
    ensures Tracks(t, e, r, outs, When(e), k)
  {
    hide Counted, Moves, SendsBubble, SendsPing;
    if k in r.list.peers {
      StillMoves(t.list.peers[k], r.list.peers[k], clock, When(e));
    }
  }

  lemma StepTracks(env: Env, seen: set<Reception>, t: Tunnel, e: RelayRuns.Event, k: Addr)
    requires Inv(env, seen, t) && AllReady(t) && Timely(t, e)
    ensures var (t', outs) := RelayRuns.Step(env, t, e);
            Tracks(t, e, t', outs, When(e), k)
  {
    hide Inv, AllReady, Transmit, Receive, Tracks;
    if e.Tx? && Dst(e.data) == k {
      TxTracks(env, seen, t, e.io, e.data);
    } else if e.Rx? && WellFormed(e.packet.ip6) && Src(e.packet.ip6) == k {
      RxTracks(env, seen, t, e.io, e.packet);
    } else {
      OtherTracks(env, seen, t, e, k);
    }
  }

  // ---- Runs ----

  /** Since when the bubbles sent because of `k` are counted: the events before did not persist. */
  predicate BubblesRestart(t: Tunnel, t': Tunnel, k: Addr) {
    k !in t'.list.peers || FreshBubbles(EntryOf(t, k), t'.list.peers[k])
  }

  predicate PingsRestart(t: Tunnel, t': Tunnel, k: Addr) {
    k !in t'.list.peers || FreshPings(EntryOf(t, k), t'.list.peers[k])
  }

  /** When the first `n` events of a run sent bubbles because of `k`, since the count last started afresh. */
  function BubbleTimes(ts: seq<Tunnel>, es: seq<RelayRuns.Event>, os: seq<seq<Out>>, k: Addr, n: nat): seq<nat>
    requires n <= |es| == |os| < |ts|
  {
    if n == 0 then []
    else
      var i := n - 1;
      var before := if BubblesRestart(ts[i], ts[n], k) then [] else BubbleTimes(ts, es, os, k, i);
      if SendsBubble(ts[i], es[i], os[i], k) then before + [When(es[i])] else before
  }

  function PingTimes(ts: seq<Tunnel>, es: seq<RelayRuns.Event>, os: seq<seq<Out>>, k: Addr, n: nat): seq<nat>
    requires n <= |es| == |os| < |ts|
  {
    if n == 0 then []
    else
      var i := n - 1;
      var before := if PingsRestart(ts[i], ts[n], k) then [] else PingTimes(ts, es, os, k, i);
      if SendsPing(ts[i], es[i], os[i], k) then before + [When(es[i])] else before
  }

  /** `times` is what the places `at` of `log` hold. */
  ghost predicate Picks(times: seq<nat>, log: seq<nat>, at: seq<nat>) {
    && |at| == |times|
    && (forall i :: 0 <= i < |at| ==> at[i] < |log| && log[at[i]] == times[i])
    && (forall i, j :: 0 <= i < j < |at| ==> at[i] < at[j])
  }

  lemma PicksGrow(times: seq<nat>, log: seq<nat>, at: seq<nat>, log': seq<nat>, now: nat, sent: bool)
      returns (at': seq<nat>)
    requires Picks(times, log, at) && Grown(log, log', now, sent)
    ensures Picks(if sent then times + [now] else times, log', at')
  {
    at' := if sent then at + [|log|] else at;
  }

  /** Everything sent is on record. */
  lemma {:induction false} BubblesRecorded(env: Env, ts: seq<Tunnel>, es: seq<RelayRuns.Event>, os: seq<seq<Out>>,
                                           k: Addr, n: nat) returns (at: seq<nat>)
    requires RelayRuns.IsRun(env, ts, es, os) && n <= |es|
    ensures if k in ts[n].list.peers then Picks(BubbleTimes(ts, es, os, k, n), ts[n].list.peers[k].log.bubbles, at)
            else BubbleTimes(ts, es, os, k, n) == []
    decreases n
  {
    hide RelayRuns.Step, AllReady, Inv, SendsBubble, SendsPing, FreshBubbles, FreshPings, Picks, Grown;
    at := [];
    if n == 0 {
      assert ts[0].list.peers == map[];
    } else {
      var i := n - 1;
      at := BubblesRecorded(env, ts, es, os, k, i);
      EveryRun(env, ts, es, os, i);
      StepTracks(env, Seen(ts, es[..i]), ts[i], es[i], k);
      assert RelayRuns.Step(env, ts[i], es[i]) == (ts[n], os[i]);
      if k in ts[n].list.peers {
        if BubblesRestart(ts[i], ts[n], k) {
          NoPicks();
          at := PicksGrow([], [], [], ts[n].list.peers[k].log.bubbles, When(es[i]), SendsBubble(ts[i], es[i], os[i], k));
        } else {
          assert k in ts[i].list.peers by { KeptFrom(ts[i], ts[n], k); }
          at := PicksGrow(BubbleTimes(ts, es, os, k, i), ts[i].list.peers[k].log.bubbles, at,
                          ts[n].list.peers[k].log.bubbles, When(es[i]), SendsBubble(ts[i], es[i], os[i], k));
        }
      }
    }
  }

  lemma {:induction false} PingsRecorded(env: Env, ts: seq<Tunnel>, es: seq<RelayRuns.Event>, os: seq<seq<Out>>,
                                         k: Addr, n: nat) returns (at: seq<nat>)
    requires RelayRuns.IsRun(env, ts, es, os) && n <= |es|
    ensures if k in ts[n].list.peers then Picks(PingTimes(ts, es, os, k, n), ts[n].list.peers[k].log.pings, at)
            else PingTimes(ts, es, os, k, n) == []
    decreases n
  {
    hide RelayRuns.Step, AllReady, Inv, SendsBubble, SendsPing, FreshBubbles, FreshPings, Picks, Grown;
    at := [];
    if n == 0 {
      assert ts[0].list.peers == map[];
    } else {
      var i := n - 1;
      at := PingsRecorded(env, ts, es, os, k, i);
      EveryRun(env, ts, es, os, i);
      StepTracks(env, Seen(ts, es[..i]), ts[i], es[i], k);
      assert RelayRuns.Step(env, ts[i], es[i]) == (ts[n], os[i]);
      if k in ts[n].list.peers {
        if PingsRestart(ts[i], ts[n], k) {
          NoPicks();
          at := PicksGrow([], [], [], ts[n].list.peers[k].log.pings, When(es[i]), SendsPing(ts[i], es[i], os[i], k));
        } else {
          assert k in ts[i].list.peers by { KeptFrom(ts[i], ts[n], k); }
          at := PicksGrow(PingTimes(ts, es, os, k, i), ts[i].list.peers[k].log.pings, at,
                          ts[n].list.peers[k].log.pings, When(es[i]), SendsPing(ts[i], es[i], os[i], k));
        }
      }
    }
  }

  lemma NoPicks()
    ensures Picks([], [], [])
  {
  }

  lemma KeptFrom(t: Tunnel, t': Tunnel, k: Addr)
    requires !BubblesRestart(t, t', k) || !PingsRestart(t, t', k)
    ensures k in t.list.peers
  {
  }

  /** Grants any distance apart. */
  lemma {:induction false} FarApart(t: seq<nat>, i: nat, j: nat)
    requires Spaced(t) && i < j < |t|
    ensures t[i] + 2 < t[j] && (i + 4 <= j ==> t[i] + 300 < t[j])
    decreases j
  {
    assert Gap(j - 1) >= 2;
    if i + 1 < j {
      FarApart(t, i, j - 1);
    }
    if i + 4 == j {
      assert Gap(i) == 300 || Gap(i + 1) == 300 || Gap(i + 2) == 300 || Gap(i + 3) == 300;
      assert Gap(i) >= 2 && Gap(i + 1) >= 2 && Gap(i + 2) >= 2;
    }
  }

  /** In every run, of the events that sent bubbles because of one peer since its count last started afresh, any two
      are more than two seconds apart and any five span more than 300 seconds; of those that sent it a ping there
      are at most four, any two more than two seconds apart. */
  lemma RatesObserved(env: Env, ts: seq<Tunnel>, es: seq<RelayRuns.Event>, os: seq<seq<Out>>, k: Addr, n: nat, i: nat,
                      j: nat)
    requires RelayRuns.IsRun(env, ts, es, os) && n <= |es| && i < j
    ensures var b := BubbleTimes(ts, es, os, k, n);
            j < |b| ==> b[i] + 2 < b[j] && (i + 4 <= j ==> b[i] + 300 < b[j])
    ensures var g := PingTimes(ts, es, os, k, n);
            |g| <= 4 && (j < |g| ==> g[i] + 2 < g[j])
  {
    hide RelayRuns.Step, AllReady, SendsBubble, SendsPing, Inv, BubbleTimes, PingTimes, Spaced;
    var at := BubblesRecorded(env, ts, es, os, k, n);
    var bt := PingsRecorded(env, ts, es, os, k, n);
    EveryRun(env, ts, es, os, n);
    if k in ts[n].list.peers {
      var p := ts[n].list.peers[k];
      CountedAt(env, Seen(ts, es[..n]), ts[n], k, ts[n].clock);
      if j < |BubbleTimes(ts, es, os, k, n)| {
        FarApart(p.log.bubbles, at[i], at[j]);
        Distance(at, i, j);
      }
      FewPings(PingTimes(ts, es, os, k, n), p.log.pings, bt);
      if j < |PingTimes(ts, es, os, k, n)| {
        PingsApart(p.log.pings, bt[i], bt[j]);
      }
    }
  }

  lemma {:induction false} Distance(at: seq<nat>, i: nat, j: nat)
    requires i < j < |at| && forall a, b :: 0 <= a < b < |at| ==> at[a] < at[b]
    ensures at[i] + (j - i) <= at[j]
    decreases j
  {
    if i + 1 < j {
      Distance(at, i, j - 1);
    }
  }

  lemma {:induction false} PingsApart(t: seq<nat>, i: nat, j: nat)
    requires (forall a :: 0 <= a < |t| - 1 ==> t[a] + 2 < t[a + 1]) && i < j < |t|
    ensures t[i] + 2 < t[j]
    decreases j
  {
    if i + 1 < j {
      PingsApart(t, i, j - 1);
    }
  }

  /** Distinct places of a record of at most four are at most four. */
  lemma FewPings(times: seq<nat>, log: seq<nat>, at: seq<nat>)
    requires Picks(times, log, at) && |log| <= 4
    ensures |times| <= 4
  {
    if |at| > 4 {
      Distance(at, 0, 4);
    }
  }

  // ---- When the counts start afresh ----

  /** The counters of a listed peer do not go back to zero, and it does not become local. */
  predicate Holds(p: Peer, q: Peer) {
    && q.local == p.local
    && (q.bubbles == p.bubbles || (q.bubbles.Set? && q.bubbles.v > 0))
    && (q.pings == p.pings || (q.pings.Set? && q.pings.v > 0))
  }

  lemma TxHolds(p: Peer, created: bool, data: Bytes, now: nat)
    ensures PingReady(p, now) ==> Holds(p, TxProbe(p, created, data, now).1)
    ensures BubbleReady(p, now) ==> Holds(p, TxBubble(p, data, now).1)
  {
  }

  lemma UntrustedHolds(env: Env, t: Tunnel, io: Io, data: Bytes, list: Cache<Peer>, p: Peer)
    requires Connectable(t, io.now, data, p)
    ensures var r := TransmitUntrusted(env, t, io, data, list, p, false).tunnel;
            Dst(data) in r.list.peers && Holds(p, r.list.peers[Dst(data)])
  {
    hide TxProbe, TxBubble, PunchHole, Multicast, Ping, Bubble, IsFresh, Limit, Holds;
    TxHolds(p, false, data, io.now);
  }

  lemma TransmitHolds(env: Env, t: Tunnel, io: Io, data: Bytes)
    requires AllReady(t) && t.clock <= io.now && |data| >= 40 && Dst(data) in t.list.peers
    ensures var r := Transmit(env, t, io, data).tunnel;
            Dst(data) in r.list.peers && Holds(t.list.peers[Dst(data)], r.list.peers[Dst(data)])
  {
    hide TransmitUntrusted, Refuse, Touch, IsGlobalUnicast;
    var k := Dst(data);
    RefusalIsQuiet(t, io.now, UNREACH_ADDR, data);
    RefusalIsQuiet(t, io.now, UNREACH_ADMIN, data);
    TouchPeers(t.list, k);
    var p := t.list.peers[k];
    if Connectable(t, io.now, data, p) {
      UntrustedHolds(env, t, io, data, Touch(t.list, k), p);
    }
  }

  /** While an entry persists, nothing but a packet from the peer itself starts its counts afresh. */
  lemma OnlyThePeerRestarts(env: Env, seen: set<Reception>, t: Tunnel, e: RelayRuns.Event, k: Addr)
    requires Inv(env, seen, t) && AllReady(t) && Timely(t, e) && k in t.list.peers
    requires var t' := RelayRuns.Step(env, t, e).0;
             && k in t'.list.peers
             && (|| (BubblesRestart(t, t', k) && t.list.peers[k].log.bubbles != [])
                 || (PingsRestart(t, t', k) && t.list.peers[k].log.pings != []))
    ensures e.Rx? && WellFormed(e.packet.ip6) && Src(e.packet.ip6) == k
  {
    hide Inv, AllReady, Transmit, ReceiveFrom, ReplyBubble, BubbleOrigin, IsLinkLocal, IsBubble, Advert.IsMaintenance,
      Spaced;
    CountedAt(env, seen, t, k, t.clock);
    if e.Tx? {
      TxOnlyAt(env, t, e.io, e.data);
      if Dst(e.data) == k {
        TransmitHolds(env, t, e.io, e.data);
      }
    } else if e.Rx? && WellFormed(e.packet.ip6) && Src(e.packet.ip6) != k {
      if if t.client then t.state.up else Src(e.packet.ip6).prefix == t.state.addr.prefix {
        RxOnlyAt(env, t, e.io, e.packet);
      }
    }
  }
}
