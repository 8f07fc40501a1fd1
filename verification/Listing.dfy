/** The peer list of a tunnel over its runs: always sound and never beyond its capacity; what is used is not collected,
    and what is not used is (peerlist.c, relay.c). */
module Listing {
  import opened Net
  import opened Packets
  import opened Peers
  import opened PeerCache
  import opened Relay
  import opened RelayRuns
  import opened Sending
  import opened Receiving
  import Advert

  /** The entry of `k` was looked up, or created: it heads the recent generation now. */
  ghost predicate Used(l: Cache<Peer>, l': Cache<Peer>, k: Addr) {
    && l'.recent == [k] + Without(l.recent, k) && l'.aged == Without(l.aged, k)
    && l'.peers.Keys == l.peers.Keys + {k}
    && (if k in l.peers then l'.left == l.left else l'.left + 1 == l.left)
  }

  lemma {:induction false} WithoutAbsent(s: seq<Addr>, k: Addr)
    requires k !in s
    ensures Without(s, k) == s
  {
    if s != [] {
      WithoutAbsent(s[1..], k);
    }
  }

  /** A lookup that finds or creates, and whatever is then stored, uses the entry. */
  lemma StoredUsed(l: Cache<Peer>, l': Cache<Peer>, k: Addr, p: Peer)
    requires Valid(l, MAX_PEERS)
    requires if k in l.peers then l' == Update(Touch(l, k), k, p)
             else l.left > 0 && l' == Update(Insert(l, k, BLANK), k, p)
    ensures Used(l, l', k)
  {
    hide NoDup, Without;
    if k !in l.peers {
      WithoutAbsent(l.recent, k);
      WithoutAbsent(l.aged, k);
    }
  }

  lemma UsedValid(l: Cache<Peer>, l': Cache<Peer>, k: Addr)
    requires Valid(l, MAX_PEERS) && Used(l, l', k)
    ensures Valid(l', MAX_PEERS)
  {
    hide NoDup;
    LookupValid(l, k, true, true, BLANK, MAX_PEERS);
    if k !in l.peers {
      WithoutAbsent(l.recent, k);
      WithoutAbsent(l.aged, k);
    }
  }

  lemma TxStores(env: Env, t: Tunnel, io: Io, packet: Bytes) returns (p: Peer)
    requires AllReady(t) && t.clock <= io.now && |packet| >= 40
    ensures var k, l := Dst(packet), Transmit(env, t, io, packet).tunnel.list;
            if !(Admitted(t, packet) && Fits(t, io, k)) then l == t.list
            else if k in t.list.peers then l == Update(Touch(t.list, k), k, p)
            else t.list.left > 0 && l == Update(Insert(t.list, k, BLANK), k, p)
  {
    hide TransmitUntrusted, Refuse, Touch, IsGlobalUnicast, Current;
    var k := Dst(packet);
    TouchPeers(t.list, k);
    RefuseExact(t, io.now, UNREACH_ADDR, packet);
    RefuseExact(t, io.now, UNREACH_ADMIN, packet);
    var list := Lookup(t.list, k, true, io.memory, BLANK).0;
    var l := Transmit(env, t, io, packet).tunnel.list;
    p := if k in l.peers then l.peers[k] else BLANK;
    if Connectable(t, io.now, packet, Found(t, k)) {
      UntrustedStores(env, t, io, packet, list, Found(t, k), k !in t.list.peers);
    }
  }

  lemma UntrustedStores(env: Env, t: Tunnel, io: Io, packet: Bytes, list: Cache<Peer>, p: Peer, created: bool)
    requires Connectable(t, io.now, packet, p)
    ensures var l := TransmitUntrusted(env, t, io, packet, list, p, created).tunnel.list;
            Dst(packet) in l.peers && l == Update(list, Dst(packet), l.peers[Dst(packet)])
  {
    hide TxProbe, TxBubble, PunchHole, Multicast, Ping, Bubble, Refuse;
    var k := Dst(packet);
    var q := if created then p.(mapping := Set(ClientMapping(k))) else p;
    if k.prefix != t.state.addr.prefix {
      RefuseExact(Put(t, list, k, TxProbe(p, created, packet, io.now).1, io.now), io.now, UNREACH_ADDR, packet);
    } else {
      RefuseExact(Put(t, list, k, TxBubble(q, packet, io.now).1, io.now), io.now, UNREACH_ADDR, packet);
      RefuseExact(Put(t, list, k, TxBubble(p, packet, io.now).1, io.now), io.now, UNREACH_ADDR, packet);
    }
  }

  // ---- Reception ----

  /** What a reception that found this list leaves: the same, or the same with an entry stored. */
  ghost predicate Leaves(l: Cache<Peer>, l': Cache<Peer>, k: Addr, q: Peer) {
    || l' == l
    || (k in l.peers && l' == Update(l, k, q))
    || (k !in l.peers && l.left > 0 && l' == Update(Insert(l, k, BLANK), k, q))
  }

  lemma TeredoStores(env: Env, t: Tunnel, io: Io, p: Packet, list: Cache<Peer>, hit: bool) returns (q: Peer)
    requires WellFormed(p.ip6) && hit == (Src(p.ip6) in list.peers)
    requires hit ==> list.peers[Src(p.ip6)].local.Set? && list.peers[Src(p.ip6)].mapping.Set?
    ensures Leaves(list, ReceiveTeredo(env, t, io, p, list, hit).tunnel.list, Src(p.ip6), q)
  {
    hide Judge, Predecap, Accept, Emit, Inner, IsLocal, IsBubble;
    var l := ReceiveTeredo(env, t, io, p, list, hit).tunnel.list;
    q := if Src(p.ip6) in l.peers then l.peers[Src(p.ip6)] else BLANK;
  }

  lemma NativeStores(env: Env, t: Tunnel, io: Io, p: Packet, list: Cache<Peer>) returns (q: Peer)
    requires WellFormed(p.ip6)
    requires Src(p.ip6) in list.peers ==> PingReady(list.peers[Src(p.ip6)], io.now)
    ensures Leaves(list, ReceiveNative(env, t, io, p, list).tunnel.list, Src(p.ip6), q)
  {
    hide CountPing, Enqueue, Ping, Inner;
    var l := ReceiveNative(env, t, io, p, list).tunnel.list;
    q := if Src(p.ip6) in l.peers then l.peers[Src(p.ip6)] else BLANK;
  }

  lemma DiscoveryStores(t: Tunnel, io: Io, p: Packet, list: Cache<Peer>) returns (q: Peer)
    requires WellFormed(p.ip6) && IsLocal(t, p)
    requires Src(p.ip6) in list.peers ==>
      list.peers[Src(p.ip6)].local.Set? && BubbleReady(list.peers[Src(p.ip6)], io.now)
    ensures Leaves(list, ReceiveDiscovery(t, io, p, list).tunnel.list, Src(p.ip6), q)
  {
    hide CountBubble, Bubble, IsNeighbour;
    var l := ReceiveDiscovery(t, io, p, list).tunnel.list;
    q := if Src(p.ip6) in l.peers then l.peers[Src(p.ip6)] else BLANK;
  }

  lemma FromStores(env: Env, t: Tunnel, io: Io, p: Packet) returns (q: Peer)
    requires AllReady(t) && t.clock <= io.now && Considered(t, p)
    ensures var k := Src(p.ip6);
            Leaves(if k in t.list.peers then Touch(t.list, k) else t.list, ReceiveFrom(env, t, io, p).tunnel.list, k, q)
  {
    hide AllReady, ReceiveTeredo, ReceiveNative, ReceiveDiscovery, IsLocal, IsDiscoveryBubble, Touch, Emit, CheckPing,
      EndsThere, Advert.IsMaintenance, Predecap, Accept, Inner;
    var k := Src(p.ip6);
    TouchPeers(t.list, k);
    if k in t.list.peers {
      ReadyOf(t, k);
    }
    var list := Lookup(t.list, k, false, io.memory, BLANK).0;
    if IsLocal(t, p) && IsDiscoveryBubble(p) {
      q := DiscoveryStores(t, io, p, list);
    } else if IsMulticast(Dst(p.ip6)) {
      q := BLANK;
    } else if TrustedAt(t, k, p.source) || Proven(env, t, io, p) {
      q := ReceiveFrom(env, t, io, p).tunnel.list.peers[k];
    } else if k.prefix == t.state.addr.prefix {
      q := TeredoStores(env, t, io, p, list, k in t.list.peers);
    } else {
      q := NativeStores(env, t, io, p, list);
    }
  }

  // ---- Every event ----

  /** An event that concerns `k`: its packet is admitted and `k` can be listed, or it is taken from a listed `k`. */
  ghost predicate Concerning(t: Tunnel, e: RelayRuns.Event, k: Addr) {
    match e
    case Tx(io, data) => |data| >= 40 && Dst(data) == k && Admitted(t, data) && Fits(t, io, k)
    case Rx(_, p) => Considered(t, p) && Src(p.ip6) == k && k in t.list.peers
    case _ => false
  }

  /** The packets of an event, if it has one, go to or come from `k`. */
  predicate About(e: RelayRuns.Event, k: Addr) {
    match e
    case Tx(_, data) => |data| >= 40 && Dst(data) == k
    case Rx(_, p) => WellFormed(p.ip6) && Src(p.ip6) == k
    case _ => false
  }

  lemma LeavesUsed(l: Cache<Peer>, l': Cache<Peer>, k: Addr, q: Peer)
    requires Valid(l, MAX_PEERS) && Leaves(if k in l.peers then Touch(l, k) else l, l', k, q)
    ensures l' == l || Used(l, l', k)
    ensures k in l.peers ==> Used(l, l', k)
  {
    hide NoDup, Without;
    if k in l.peers {
      var was := l.peers[k];
      assert Touch(l, k).peers[k := was] == Touch(l, k).peers;
      StoredUsed(l, Update(Touch(l, k), k, was), k, was);
      StoredUsed(l, Update(Touch(l, k), k, q), k, q);
    } else if l' != l {
      StoredUsed(l, l', k, q);
    }
  }

  /** A packet event uses the entry it concerns, and no other. */
  lemma EventUses(env: Env, t: Tunnel, e: RelayRuns.Event)
    requires AllReady(t) && Timely(t, e) && Valid(t.list, MAX_PEERS) && (e.Tx? || e.Rx?)
    ensures var l := RelayRuns.Step(env, t, e).0.list;
            && (l == t.list || exists k :: About(e, k) && Used(t.list, l, k))
            && (forall k :: Concerning(t, e, k) ==> Used(t.list, l, k))
  {
    hide AllReady, Transmit, Receive, ReceiveFrom, Considered, Admitted, Valid, Used, Leaves, Touch;
    match e
    case Tx(io, data) =>
      var p := TxStores(env, t, io, data);
      var l := Transmit(env, t, io, data).tunnel.list;
      if Admitted(t, data) && Fits(t, io, Dst(data)) {
        StoredUsed(t.list, l, Dst(data), p);
        assert About(e, Dst(data));
      }
    case Rx(io, p) =>
      if Considered(t, p) {
        ConsideredFormed(t, p);
        Opening(env, t, io, p);
        var q := FromStores(env, t, io, p);
        LeavesUsed(t.list, ReceiveFrom(env, t, io, p).tunnel.list, Src(p.ip6), q);
        assert About(e, Src(p.ip6));
      } else {
        IgnoredExact(env, t, io, p);
      }
  }

  lemma ConsideredFormed(t: Tunnel, p: Packet)
    requires Considered(t, p)
    ensures WellFormed(p.ip6) && if t.client then t.state.up else Src(p.ip6).prefix == t.state.addr.prefix
  {
  }

  // ---- Every run ----

  lemma StepValid(env: Env, t: Tunnel, e: RelayRuns.Event)
    requires AllReady(t) && Timely(t, e) && Valid(t.list, MAX_PEERS)
    ensures Valid(RelayRuns.Step(env, t, e).0.list, MAX_PEERS)
  {
    hide AllReady, Transmit, Receive, Used, About;
    if e.Tx? || e.Rx? {
      EventUses(env, t, e);
      var l := RelayRuns.Step(env, t, e).0.list;
      if l != t.list {
        var k :| About(e, k) && Used(t.list, l, k);
        UsedValid(t.list, l, k);
      }
    }
  }

  /** In every run index and generations agree, and entries and free places make 1024. */
  lemma {:induction false} EveryRunListed(env: Env, ts: seq<Tunnel>, es: seq<RelayRuns.Event>, os: seq<seq<Out>>, n: nat)
    requires IsRun(env, ts, es, os) && n <= |es|
    ensures Valid(ts[n].list, MAX_PEERS)
    ensures ts[n].list.left + |ts[n].list.recent| + |ts[n].list.aged| == 1024
    decreases n
  {
    hide AllReady, RelayRuns.Step;
    if n > 0 {
      EveryRunListed(env, ts, es, os, n - 1);
      EveryRun(env, ts, es, os, n - 1);
      StepValid(env, ts[n - 1], es[n - 1]);
      assert RelayRuns.Step(env, ts[n - 1], es[n - 1]) == (ts[n], os[n - 1]);
    }
  }

  /** In every run: an entry that an event used survives a collection that follows. */
  lemma UsedSurvives(env: Env, ts: seq<Tunnel>, es: seq<RelayRuns.Event>, os: seq<seq<Out>>, i: nat, k: Addr)
    requires IsRun(env, ts, es, os) && i + 1 < |es| && Concerning(ts[i], es[i], k) && es[i + 1].Gc?
    ensures k in ts[i + 1].list.peers && k in ts[i + 2].list.peers
    ensures ts[i + 2].list.peers[k] == ts[i + 1].list.peers[k]
  {
    hide AllReady, RelayRuns.Step, Concerning, Used, Valid, Collect;
    EveryRun(env, ts, es, os, i);
    EveryRun(env, ts, es, os, i + 1);
    EveryRunListed(env, ts, es, os, i);
    ConcerningIs(ts[i], es[i], k);
    EventUses(env, ts[i], es[i]);
    assert RelayRuns.Step(env, ts[i], es[i]) == (ts[i + 1], os[i]);
    assert RelayRuns.Step(env, ts[i + 1], es[i + 1]) == (ts[i + 2], os[i + 1]);
    AfterCollection(env, ts[i + 1]);
    UsedSpared(ts[i].list, ts[i + 1].list, k);
  }

  lemma UsedSpared(l: Cache<Peer>, l': Cache<Peer>, k: Addr)
    requires Used(l, l', k)
    ensures k in l'.peers && k in Collect(l').peers && Collect(l').peers[k] == l'.peers[k]
  {
    assert k in l'.peers.Keys;
  }

  lemma ConcerningIs(t: Tunnel, e: RelayRuns.Event, k: Addr)
    requires Concerning(t, e, k)
    ensures e.Tx? || e.Rx?
  {
  }

  /** What no event is about does not become recent. */
  lemma StaysOld(env: Env, t: Tunnel, e: RelayRuns.Event, k: Addr)
    requires AllReady(t) && Timely(t, e) && Valid(t.list, MAX_PEERS) && !About(e, k) && k !in t.list.recent
    ensures k !in RelayRuns.Step(env, t, e).0.list.recent
  {
    hide AllReady, Transmit, Receive, About, Valid;
    if e.Tx? || e.Rx? {
      EventUses(env, t, e);
      var l := RelayRuns.Step(env, t, e).0.list;
      if l != t.list {
        var j :| About(e, j) && Used(t.list, l, j);
        assert j != k;
      }
    }
  }

  lemma {:induction false} OldUntil(env: Env, ts: seq<Tunnel>, es: seq<RelayRuns.Event>, os: seq<seq<Out>>, i: nat,
                                    j: nat, k: Addr)
    requires IsRun(env, ts, es, os) && i < j <= |es| && es[i].Gc?
    requires forall m :: i < m < j ==> !About(es[m], k)
    ensures k !in ts[j].list.recent
    decreases j
  {
    hide AllReady, RelayRuns.Step, About, Valid;
    if j == i + 1 {
      EveryRun(env, ts, es, os, i);
      assert RelayRuns.Step(env, ts[i], es[i]) == (ts[j], os[i]);
      AfterCollection(env, ts[i]);
    } else {
      OldUntil(env, ts, es, os, i, j - 1, k);
      EveryRun(env, ts, es, os, j - 1);
      EveryRunListed(env, ts, es, os, j - 1);
      StaysOld(env, ts[j - 1], es[j - 1], k);
      assert RelayRuns.Step(env, ts[j - 1], es[j - 1]) == (ts[j], os[j - 1]);
    }
  }

  lemma AfterCollection(env: Env, t: Tunnel)
    requires AllReady(t)
    ensures RelayRuns.Step(env, t, RelayRuns.Gc) == (t.(list := Collect(t.list)), [])
    ensures Collect(t.list).recent == []
  {
  }

  /** In every run: an entry that no packet was about between two collections is gone after the second. */
  lemma IdleGone(env: Env, ts: seq<Tunnel>, es: seq<RelayRuns.Event>, os: seq<seq<Out>>, i: nat, j: nat, k: Addr)
    requires IsRun(env, ts, es, os) && i < j < |es| && es[i].Gc? && es[j].Gc?
    requires forall m :: i < m < j ==> !About(es[m], k)
    ensures k !in ts[j + 1].list.peers
  {
    hide AllReady, RelayRuns.Step, About;
    OldUntil(env, ts, es, os, i, j, k);
    EveryRun(env, ts, es, os, j);
    EveryRunListed(env, ts, es, os, j);
    assert RelayRuns.Step(env, ts[j], es[j]) == (ts[j + 1], os[j]);
    AfterCollection(env, ts[j]);
  }
}
