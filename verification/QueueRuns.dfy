/** What the runs of a tunnel do to the queue of each peer: the operations whose conservation Peers proves. */
module QueueRuns {
  import opened Net
  import opened Packets
  import opened Peers
  import opened PeerCache
  import opened Pieces
  import opened Relay
  import opened RelayLaws
  import opened RelayRuns
  import opened OneEntry
  import Advert

  /** The peer an event's packet goes to or claims to come from. */
  function About(e: RelayRuns.Event): Option<Addr> {
    match e
    case Tx(_, data) => if |data| >= 40 then Some(Dst(data)) else None
    case Rx(_, p) => if WellFormed(p.ip6) then Some(Src(p.ip6)) else None
    case _ => None
  }

  /** An output carries traffic to or from `k`. */
  predicate Concerns(o: Out, k: Addr) {
    match o
    case Send(Payload, _, data) => |data| >= 40 && Dst(data) == k
    case Deliver(data) => |data| >= 40 && Src(data) == k
    case _ => false
  }

  function After(s: Slot, op: QueueOp): Slot {
    match op
    case Skip => s
    case Add(i) => Offer(s, i)
    case Flush(_) => EMPTY_SLOT
    case Lose => EMPTY_SLOT
  }

  /** An operation on the queue of `k` is one that the event accounts for: the packet it transmits or receives is
      offered, or the source of the packet it receives, then trusted there, has the queue flushed to it, or the
      entry goes. */
  ghost predicate Accounts(e: RelayRuns.Event, t': Tunnel, k: Addr, op: QueueOp) {
    match op
    case Skip => true
    case Add(i) =>
      && About(e) == Some(k)
      && i == if e.Tx? then Item(e.data, NOWHERE, false) else Item(Inner(e.packet), e.packet.source, true)
    case Flush(m) =>
      && e.Rx? && About(e) == Some(k) && m == e.packet.source
      && k in t'.list.peers && t'.list.peers[k].trusted == Set(true) && t'.list.peers[k].mapping == Set(m)
    case Lose => !e.Tx? && !e.Rx? && k !in t'.list.peers
  }

  /** What of an event's output concerns `k`: for the packet's own peer, control datagrams, then what left the
      queue, then at most the received packet itself, or the transmitted packet alone; for others nothing. */
  ghost predicate Yields(e: RelayRuns.Event, k: Addr, outs: seq<Out>, head: seq<Out>, queued: seq<Out>, tail: seq<Out>) {
    && (forall o :: o in head ==> !Concerns(o, k) && (About(e) == Some(k) ==> IsControl(o)))
    && if About(e) != Some(k) then outs == head && queued == tail == []
       else if e.Tx? then
         && outs == head + tail && queued == []
         && (tail == [] || (|tail| == 1 && tail[0].Send? && tail[0].data == e.data))
       else
         outs == head + queued + tail && (tail == [] || tail == [Deliver(Inner(e.packet))])
  }

  /** One event's dealings with the queue of `k`; a packet is queued or passed on, not both. */
  ghost predicate Deals(t: Tunnel, e: RelayRuns.Event, t': Tunnel, outs: seq<Out>, k: Addr, op: QueueOp,
                        head: seq<Out>, queued: seq<Out>, tail: seq<Out>) {
    && SlotAt(t', k) == After(SlotAt(t, k), op)
    && Accounts(e, t', k, op)
    && queued == (if op.Flush? then Emit(SlotAt(t, k).queue, op.mapping) else [])
    && Yields(e, k, outs, head, queued, tail)
    && (op.Add? ==> tail == [])
  }

  lemma ControlConcernsNone(outs: seq<Out>, k: Addr)
    requires forall o :: o in outs ==> IsControl(o)
    ensures forall o :: o in outs ==> !Concerns(o, k)
  {
  }

  /** A peer's queue concerns that peer alone. */
  lemma {:induction false} EmitConcerns(q: seq<Item>, m: Endpoint, k: Addr, j: Addr)
    requires Filed(k, q) && j != k
    ensures forall o :: o in Emit(q, m) ==> !Concerns(o, j)
  {
    if q != [] {
      assert forall i :: 0 <= i < |q[1..]| ==> q[1..][i] == q[i + 1];
      EmitConcerns(q[1..], m, k, j);
    }
  }

  // ---- Transmission ----

  lemma TxDeals(env: Env, t: Tunnel, io: Io, data: Bytes, k: Addr) returns (op: QueueOp, head: seq<Out>, tail: seq<Out>)
    requires AllReady(t) && t.clock <= io.now && |data| >= 40
    ensures var r := Transmit(env, t, io, data);
            Deals(t, Tx(io, data), r.tunnel, r.outs, k, op, head, [], tail)
  {
    hide AllReady, Transmit, Emit, Offer;
    TransmitDisposes(env, t, io, data);
    TxOnlyAt(env, t, io, data);
    var r := Transmit(env, t, io, data);
    op := Skip;
    head, tail := r.outs, [];
    if k == Dst(data) {
      if SlotAt(r.tunnel, k) != SlotAt(t, k) {
        op := Add(Item(data, NOWHERE, false));
      }
      if o :| o in r.outs && !IsControl(o) {
        head, tail := [], r.outs;
        assert r.outs == [o];
      } else {
        ControlConcernsNone(r.outs, k);
        assert head + tail == r.outs;
      }
    }
  }

  // ---- Reception ----

  /** What a reception does with the queue of the packet's source. */
  ghost predicate Serves(t: Tunnel, p: Packet, r: Result, op: QueueOp, head: seq<Out>, queued: seq<Out>, tail: seq<Out>)
    requires WellFormed(p.ip6)
  {
    var k := Src(p.ip6);
    && SlotAt(r.tunnel, k) == After(SlotAt(t, k), op)
    && (match op
        case Skip => true
        case Add(i) => i == Item(Inner(p), p.source, true)
        case Flush(m) =>
          && m == p.source && k in r.tunnel.list.peers
          && r.tunnel.list.peers[k].trusted == Set(true) && r.tunnel.list.peers[k].mapping == Set(m)
        case Lose => false)
    && queued == (if op.Flush? then Emit(SlotAt(t, k).queue, op.mapping) else [])
    && r.outs == head + queued + tail
    && (op.Add? ==> tail == [])
    && (forall o :: o in head ==> IsControl(o))
    && (tail == [] || tail == [Deliver(Inner(p))])
  }

  lemma DiscoveryServes(t: Tunnel, io: Io, p: Packet, list0: Cache<Peer>)
    requires WellFormed(p.ip6) && IsLocal(t, p) && list0.peers == t.list.peers
    requires Src(p.ip6) in list0.peers ==>
      list0.peers[Src(p.ip6)].local.Set? && BubbleReady(list0.peers[Src(p.ip6)], io.now)
    ensures var r := ReceiveDiscovery(t, io, p, list0);
            Serves(t, p, r, Skip, r.outs, [], [])
  {
    hide Bubble, IsNeighbour, Inner;
    var r := ReceiveDiscovery(t, io, p, list0);
    assert r.outs + [] + [] == r.outs;
  }

  lemma EnqueuedThenCounted(p: Peer, i: Item, now: nat)
    requires PingReady(p, now)
    ensures var q := Enqueue(p, i).(lastRx := Set(now));
            PingReady(q, now) && SlotOf(CountPing(q, now).1) == Offer(SlotOf(p), i)
  {
  }

  lemma ReplyIsControl(e: Endpoint, ip6: Bytes)
    requires |ip6| >= 40
    ensures forall o :: o in ReplyBubble(e, ip6) ==> IsControl(o)
  {
    hide Bubble;
  }

  lemma NativeServes(env: Env, t: Tunnel, io: Io, p: Packet, list0: Cache<Peer>) returns (op: QueueOp)
    requires WellFormed(p.ip6) && list0.peers == t.list.peers
    requires Src(p.ip6) in list0.peers ==> PingReady(list0.peers[Src(p.ip6)], io.now)
    ensures var r := ReceiveNative(env, t, io, p, list0);
            Serves(t, p, r, op, r.outs, [], [])
  {
    hide Ping, Inner, CountPing, Touch, Enqueue, Begin, Serves, Put;
    var k, i := Src(p.ip6), Item(Inner(p), p.source, true);
    var (list, outcome) := if k in list0.peers then (list0, Hit) else Lookup(list0, k, true, io.memory, BLANK);
    op := Skip;
    if outcome == Missing {
      NothingServes(t, t.(list := list, clock := io.now), p);
    } else {
      BeginsEmpty(io.now);
      var p0 := if k in list0.peers then list0.peers[k] else Begin(BLANK).(mapping := Set(NOWHERE));
      EnqueuedThenCounted(p0, i, io.now);
      var r := ReceiveNative(env, t, io, p, list0);
      OfferServes(t, io, p, list, CountPing(Enqueue(p0, i).(lastRx := Set(io.now)), io.now).1, r.outs);
      op := Add(i);
    }
  }

  lemma BeginsEmpty(now: nat)
    ensures var p := Begin(BLANK).(mapping := Set(NOWHERE));
            SlotOf(p) == EMPTY_SLOT && PingReady(p, now)
  {
  }

  lemma OfferServes(t: Tunnel, io: Io, p: Packet, list: Cache<Peer>, q: Peer, outs: seq<Out>)
    requires WellFormed(p.ip6) && SlotOf(q) == Offer(SlotAt(t, Src(p.ip6)), Item(Inner(p), p.source, true))
    requires forall o :: o in outs ==> IsControl(o)
    ensures Serves(t, p, Result(Put(t, list, Src(p.ip6), q, io.now), outs, true),
                   Add(Item(Inner(p), p.source, true)), outs, [], [])
  {
    hide Inner, Offer;
    assert outs + [] + [] == outs;
  }

  /** A source that becomes or stays trusted has its queue flushed to it. */
  lemma AcceptServes(t: Tunnel, io: Io, p: Packet, list: Cache<Peer>, q: Peer, tail: seq<Out>)
    requires WellFormed(p.ip6) && SlotOf(q) == SlotAt(t, Src(p.ip6))
    requires q.trusted == Set(true) && q.mapping == Set(p.source)
    requires tail == [] || tail == [Deliver(Inner(p))]
    ensures Serves(t, p, Result(Put(t, list, Src(p.ip6), Predecap(q, io.now), io.now),
                                Emit(q.queue, p.source) + tail, true),
                   Flush(p.source), [], Emit(q.queue, p.source), tail)
  {
    hide Emit, Inner, Predecap;
    Glue(Emit(q.queue, p.source), tail);
    Predecapped(q, io.now);
  }

  lemma Glue(e: seq<Out>, tail: seq<Out>)
    ensures [] + e + tail == e + tail
  {
  }

  lemma Predecapped(q: Peer, now: nat)
    ensures SlotOf(Predecap(q, now)) == EMPTY_SLOT
    ensures Predecap(q, now).trusted == q.trusted && Predecap(q, now).mapping == q.mapping
  {
  }

  lemma NothingServes(t: Tunnel, t': Tunnel, p: Packet)
    requires WellFormed(p.ip6) && t'.list.peers == t.list.peers
    ensures Serves(t, p, Result(t', [], true), Skip, [], [], [])
  {
  }

  lemma TeredoServes(env: Env, t: Tunnel, io: Io, p: Packet, list0: Cache<Peer>, hit: bool)
      returns (op: QueueOp, queued: seq<Out>, tail: seq<Out>)
    requires WellFormed(p.ip6) && (hit <==> Src(p.ip6) in list0.peers) && list0.peers == t.list.peers
    requires hit ==> list0.peers[Src(p.ip6)].local.Set? && list0.peers[Src(p.ip6)].mapping.Set?
    ensures Serves(t, p, ReceiveTeredo(env, t, io, p, list0, hit), op, [], queued, tail)
  {
    hide Judge, Emit, Inner, IsLocal, Noted, Serves, Predecap, Put, Touch, Insert;
    var k := Src(p.ip6);
    var verdict := Judge(env, t, io, if hit then Some(list0.peers[k]) else None, p);
    var (list, outcome) := if hit then (list0, Hit) else Lookup(list0, k, true, io.memory, BLANK);
    NothingServes(t, t.(list := list0, clock := io.now), p);
    op, queued, tail := Skip, [], [];
    if verdict.Trust? && (hit || t.client) && outcome != Missing {
      var p0 := if hit then list.peers[k] else BLANK.(local := Set(IsLocal(t, p)));
      var q := Accept(p0, p.source, verdict.voucher);
      op, queued := Flush(p.source), Emit(q.queue, p.source);
      tail := if IsBubble(p.ip6) then [] else [Deliver(Inner(p))];
      AcceptServes(t, io, p, list, q, tail);
    }
  }

  lemma FromServes(env: Env, t: Tunnel, io: Io, p: Packet)
      returns (op: QueueOp, head: seq<Out>, queued: seq<Out>, tail: seq<Out>)
    requires AllReady(t) && t.clock <= io.now && WellFormed(p.ip6)
    requires if t.client then t.state.up else Src(p.ip6).prefix == t.state.addr.prefix
    ensures Serves(t, p, ReceiveFrom(env, t, io, p), op, head, queued, tail)
  {
    hide ReceiveTeredo, ReceiveNative, ReceiveDiscovery, Predecap, Emit, Inner, CheckPing, IsDiscoveryBubble,
      IsNeighbour, Touch, Serves, Put, Noted;
    var k := Src(p.ip6);
    TouchPeers(t.list, k);
    var (list, outcome) := Lookup(t.list, k, false, io.memory, BLANK);
    assert list.peers == t.list.peers && (outcome == Hit <==> k in t.list.peers);
    op, head, queued, tail := Skip, [], [], [];
    if IsLocal(t, p) && IsDiscoveryBubble(p) {
      DiscoveryServes(t, io, p, list);
      head := ReceiveDiscovery(t, io, p, list).outs;
    } else if IsMulticast(Dst(p.ip6)) {
      NothingServes(t, t.(list := list, clock := io.now), p);
    } else if outcome == Hit && list.peers[k].trusted.v && p.source == list.peers[k].mapping.v {
      op, queued, tail := Flush(p.source), Emit(list.peers[k].queue, p.source), [Deliver(Inner(p))];
      AcceptServes(t, io, p, list, list.peers[k], tail);
    } else if outcome == Hit && t.client && CheckPing(env, io.wall, p.ip6) {
      var q := Accept(list.peers[k], p.source, Some(Voucher(ByPing, Noted(t, io, p))));
      op, queued := Flush(p.source), Emit(q.queue, p.source);
      AcceptServes(t, io, p, list, q, []);
      assert Emit(q.queue, p.source) + [] == Emit(q.queue, p.source);
    } else if k.prefix == t.state.addr.prefix {
      op, queued, tail := TeredoServes(env, t, io, p, list, outcome == Hit);
    } else {
      op := NativeServes(env, t, io, p, list);
      head := ReceiveNative(env, t, io, p, list).outs;
    }
  }

  /** Reception as a whole: a reply to the server's bubble may come first. */
  lemma RxServes(env: Env, t: Tunnel, io: Io, p: Packet)
      returns (op: QueueOp, head: seq<Out>, queued: seq<Out>, tail: seq<Out>)
    requires AllReady(t) && t.clock <= io.now && WellFormed(p.ip6)
    ensures Serves(t, p, Receive(env, t, io, p), op, head, queued, tail)
  {
    hide ReceiveFrom, BubbleOrigin, AllReady, Serves, ReplyBubble, Inner, Emit, IsBubble, IsLinkLocal,
      Advert.IsMaintenance, FromServer;
    op, head, queued, tail := Skip, [], [], [];
    NothingServes(t, t, p);
    if !t.client {
      if Src(p.ip6).prefix == t.state.addr.prefix {
        op, head, queued, tail := FromServes(env, t, io, p);
      }
    } else if t.state.up && !Advert.IsMaintenance(p) {
      var e := BubbleOrigin(t, p);
      var reply := FromServer(t, p) && e.ip != ZERO32;
      var outs := if reply then ReplyBubble(e, p.ip6) else [];
      ReplyIsControl(e, p.ip6);
      if (reply && IsBubble(p.ip6)) || IsLinkLocal(Src(p.ip6)) {
        ReplyFirst(t, p, Result(t, [], true), Skip, outs, [], [], []);
        assert outs + [] == outs;
        head := outs;
      } else {
        op, head, queued, tail := FromServes(env, t, io, p);
        ReplyFirst(t, p, ReceiveFrom(env, t, io, p), op, outs, head, queued, tail);
        head := outs + head;
      }
    }
  }

  lemma ReplyFirst(t: Tunnel, p: Packet, r: Result, op: QueueOp, reply: seq<Out>, head: seq<Out>, queued: seq<Out>,
                   tail: seq<Out>)
    requires WellFormed(p.ip6) && Serves(t, p, r, op, head, queued, tail)
    requires forall o :: o in reply ==> IsControl(o)
    ensures Serves(t, p, r.(outs := reply + r.outs), op, reply + head, queued, tail)
  {
    hide Emit, Inner, After;
    assert reply + (head + queued + tail) == reply + head + queued + tail;
  }

  lemma FiledAt(env: Env, seen: set<Reception>, t: Tunnel, k: Addr)
    requires Inv(env, seen, t)
    ensures Filed(k, SlotAt(t, k).queue)
  {
    hide Vouches, Ready, BubbleLaw, PingLaw, QueueLaw;
    if k in t.list.peers {
      assert Good(env, seen, ContextOf(t), k, t.list.peers[k]);
    }
  }

  /** A reception leaves every other peer's queue alone. */
  lemma OtherSlots(env: Env, t: Tunnel, io: Io, p: Packet, k: Addr)
    requires AllReady(t) && t.clock <= io.now && WellFormed(p.ip6) && k != Src(p.ip6)
    ensures SlotAt(Receive(env, t, io, p).tunnel, k) == SlotAt(t, k)
  {
    hide AllReady, ReceiveFrom, ReplyBubble, BubbleOrigin, IsGlobalUnicast;
    if if t.client then t.state.up else Src(p.ip6).prefix == t.state.addr.prefix {
      RxOnlyAt(env, t, io, p);
    }
  }

  lemma RxDeals(env: Env, seen: set<Reception>, t: Tunnel, io: Io, p: Packet, k: Addr)
      returns (op: QueueOp, head: seq<Out>, queued: seq<Out>, tail: seq<Out>)
    requires Inv(env, seen, t) && AllReady(t) && t.clock <= io.now
    ensures var r := Receive(env, t, io, p);
            Deals(t, Rx(io, p), r.tunnel, r.outs, k, op, head, queued, tail)
  {
    hide Inv, AllReady, Emit, Inner, Filed, ReceiveFrom, BubbleOrigin, ReplyBubble, SlotAt;
    op, head, queued, tail := Skip, [], [], [];
    var r := Receive(env, t, io, p);
    if WellFormed(p.ip6) {
      hide Receive;
      op, head, queued, tail := RxServes(env, t, io, p);
      ControlConcernsNone(head, k);
      if k != Src(p.ip6) {
        OtherSlots(env, t, io, p, k);
        FiledAt(env, seen, t, Src(p.ip6));
        EmitConcerns(SlotAt(t, Src(p.ip6)).queue, p.source, Src(p.ip6), k);
        op, head, queued, tail := Skip, r.outs, [], [];
      }
    }
  }

  // ---- Everything else ----

  lemma OtherDeals(env: Env, t: Tunnel, e: RelayRuns.Event, k: Addr) returns (op: QueueOp)
    requires AllReady(t) && !e.Tx? && !e.Rx?
    ensures var (t', outs) := RelayRuns.Step(env, t, e);
            Deals(t, e, t', outs, k, op, outs, [], [])
  {
    hide AllReady;
    var (t', outs) := RelayRuns.Step(env, t, e);
    op := if k in t'.list.peers then Skip else Lose;
  }

  lemma StepDeals(env: Env, seen: set<Reception>, t: Tunnel, e: RelayRuns.Event, k: Addr)
      returns (op: QueueOp, head: seq<Out>, queued: seq<Out>, tail: seq<Out>)
    requires Inv(env, seen, t) && AllReady(t) && Timely(t, e)
    ensures var (t', outs) := RelayRuns.Step(env, t, e);
            Deals(t, e, t', outs, k, op, head, queued, tail)
  {
    hide Inv, AllReady, Transmit, Receive, Deals;
    queued, tail := [], [];
    match e
    case Tx(io, data) => op, head, tail := TxDeals(env, t, io, data, k);
    case Rx(io, p) => op, head, queued, tail := RxDeals(env, seen, t, io, p, k);
    case _ =>
      op := OtherDeals(env, t, e, k);
      head := RelayRuns.Step(env, t, e).1;
  }

  // ---- Runs ----

  lemma RunQueueSnoc(ops: seq<QueueOp>, op: QueueOp)
    ensures var r, r' := RunQueue(ops), RunQueue(ops + [op]);
            && r'.slot == After(r.slot, op)
            && r'.outs == r.outs + if op.Flush? then Emit(r.slot.queue, op.mapping) else []
  {
    hide Emit;
    assert (ops + [op])[..|ops|] == ops;
    var r := RunQueue(ops);
    assert r.outs + [] == r.outs;
  }

  /** In every run, the queue of every peer is the outcome of operations that the events account for, one each, and
      what left the queue is exactly what those operations emit: every packet accepted is still waiting, was lost
      with its entry, or was emitted once, with its batch in reverse order of arrival, to or from the mapping that
      the flushing packet came from. */
  lemma {:induction false} QueuesConserved(env: Env, ts: seq<Tunnel>, es: seq<RelayRuns.Event>, os: seq<seq<Out>>,
                                           k: Addr, n: nat)
      returns (ops: seq<QueueOp>, heads: seq<seq<Out>>, queued: seq<seq<Out>>, tails: seq<seq<Out>>)
    requires RelayRuns.IsRun(env, ts, es, os) && n <= |es|
    ensures |ops| == |heads| == |queued| == |tails| == n
    ensures forall i :: 0 <= i < n ==>
              Deals(ts[i], es[i], ts[i + 1], os[i], k, ops[i], heads[i], queued[i], tails[i])
    ensures var r := RunQueue(ops);
            && SlotAt(ts[n], k) == r.slot && Concat(queued) == r.outs
            && r.slot.queue == Reversed(r.waiting) && r.slot.left + Total(r.slot.queue) == MAX_QUEUE
            && r.accepted == Joined(r.gone) + r.waiting && r.outs == Expected(r.gone)
    decreases n
  {
    hide RelayRuns.Step, AllReady, Inv, Deals, Total, Reversed, Joined, Expected;
    if n == 0 {
      ops, heads, queued, tails := [], [], [], [];
      assert ts[0].list.peers == map[];
    } else {
      var i := n - 1;
      ops, heads, queued, tails := QueuesConserved(env, ts, es, os, k, i);
      EveryRun(env, ts, es, os, i);
      var op, head, out, tail := StepDeals(env, Seen(ts, es[..i]), ts[i], es[i], k);
      assert RelayRuns.Step(env, ts[i], es[i]) == (ts[i + 1], os[i]);
      RunQueueSnoc(ops, op);
      Dealt(ts[i], es[i], ts[i + 1], os[i], k, op, head, out, tail);
      var queued' := queued + [out];
      ConcatSnoc(queued', i);
      assert queued'[..i] == queued && queued'[..n] == queued';
      ops, heads, queued, tails := ops + [op], heads + [head], queued', tails + [tail];
    }
    QueueConservation(ops);
  }

  lemma Dealt(t: Tunnel, e: RelayRuns.Event, t': Tunnel, outs: seq<Out>, k: Addr, op: QueueOp, head: seq<Out>,
              queued: seq<Out>, tail: seq<Out>)
    requires Deals(t, e, t', outs, k, op, head, queued, tail)
    ensures SlotAt(t', k) == After(SlotAt(t, k), op)
    ensures queued == if op.Flush? then Emit(SlotAt(t, k).queue, op.mapping) else []
  {
  }
}
