/** One peer: its fields, its packet queue and its rate limits (peerlist.h, peerlist.c, relay.c). */
module Peers {
  import opened Net
  import opened Packets

  /** A field of a freshly allocated peer has no value until something is stored in it. */
  datatype Field<+T> = Unset | Set(v: T)

  /** An element of the packet queue; `from` is meaningful for incoming packets only. */
  datatype Item = Item(data: Bytes, from: Endpoint, incoming: bool)

  datatype Iface = Iface(addr: W32, mask: W32)

  /** A tunnel's place on its local network: its own address, the configured netmask, the local interfaces. */
  datatype Site = Site(self: Addr, mask: W32, ifaces: seq<Iface>)

  /** A packet with the circumstances of its arrival: the wall clock, whether the tunnel was a client, and its
      place on the local network if it had one. */
  datatype Reception = Reception(packet: Packet, wall: nat, client: bool, site: Option<Site>)

  /** What authenticated a mapping: which test, and which reception passed it. */
  datatype Proof = ByPing | ByMatch | ByNonce | ByLocality | ByDiscovery

  datatype Voucher = Voucher(proof: Proof, at: Reception)

  /** History, written along and never read by the steps: when bubbles and pings were granted since the last
      reset of their counters, and what vouched for the current mapping. */
  datatype Log = Log(bubbles: seq<nat>, pings: seq<nat>, voucher: Option<Voucher>)

  datatype Peer = Peer(
    queue: seq<Item>, queueLeft: nat,
    lastRx: Field<nat>, lastTx: Field<nat>, lastPing: Field<nat>,
    mapping: Field<Endpoint>,
    trusted: Field<bool>, local: Field<bool>, bubbles: Field<nat>, pings: Field<nat>,
    log: Log)

  const MAX_QUEUE: nat := 1280

  /** `listitem_create`: only the queue is initialised. */
  const BLANK := Peer([], MAX_QUEUE, Unset, Unset, Unset, Unset, Unset, Unset, Unset, Unset, Log([], [], None))

  // ---- Packet queue ----

  function Total(q: seq<Item>): nat {
    if q == [] then 0 else |q[0].data| + Total(q[1..])
  }

  predicate QueueLaw(p: Peer) {
    p.queueLeft + Total(p.queue) == MAX_QUEUE
  }

  /** `teredo_peer_queue`: the newest packet goes to the head, or is dropped if that would exceed the budget. */
  function Enqueue(p: Peer, i: Item): (r: Peer)
    ensures r == p.(queue := r.queue, queueLeft := r.queueLeft)
    ensures QueueLaw(p) ==>
      QueueLaw(r) && r.queue == if Total(p.queue) + |i.data| <= MAX_QUEUE then [i] + p.queue else p.queue
  {
    if |i.data| > p.queueLeft then p
    else
      assert ([i] + p.queue)[1..] == p.queue;
      p.(queue := [i] + p.queue, queueLeft := p.queueLeft - |i.data|)
  }

  /** `teredo_peer_queue_yield` */
  function Yield(p: Peer): (r: Peer)
    ensures QueueLaw(r) && r.queue == []
    ensures p == r.(queue := p.queue, queueLeft := p.queueLeft)
  {
    p.(queue := [], queueLeft := MAX_QUEUE)
  }

  datatype Purpose = Payload | Control

  /** What a tunnel emits: UDP datagrams, packets for the IPv6 stack, errors and notifications. */
  datatype Out =
    | Send(purpose: Purpose, to: Endpoint, data: Bytes)
    | Deliver(data: Bytes)
    | Unreachable(code: byte, packet: Bytes)
    | Up(addr: Addr, mtu: nat)
    | Down

  /** What becomes of one queued packet once the peer's mapping is known. */
  function Emission(i: Item, mapping: Endpoint): seq<Out> {
    if !i.incoming then [Send(Payload, mapping, i.data)]
    else if i.from == mapping then [Deliver(i.data)]
    else []
  }

  function Emit(q: seq<Item>, mapping: Endpoint): seq<Out> {
    if q == [] then [] else Emission(q[0], mapping) + Emit(q[1..], mapping)
  }

  lemma EmitFirst(outs: seq<Out>, q: seq<Item>, mapping: Endpoint)
    requires q != []
    ensures outs + Emit(q, mapping) == outs + Emission(q[0], mapping) + Emit(q[1..], mapping)
  {
    hide Emission;
    var e, r := Emission(q[0], mapping), Emit(q[1..], mapping);
    assert outs + (e + r) == outs + e + r;
  }

  /** `teredo_queue_emit`: the list is walked from its head, newest packet first. */
  method QueueEmit(q: seq<Item>, mapping: Endpoint) returns (outs: seq<Out>)
    ensures outs == Emit(q, mapping)
  {
    hide Emit;
    outs := [];
    var rest := q;
    assert [] + Emit(q, mapping) == Emit(q, mapping);
    while rest != []
      invariant outs + Emit(rest, mapping) == Emit(q, mapping)
      decreases |rest|
    {
      var i := rest[0];
      EmitFirst(outs, rest, mapping);
      if i.incoming {
        if mapping == i.from {
          outs := outs + [Deliver(i.data)];
        } else {
          assert outs + [] == outs;
        }
      } else {
        outs := outs + [Send(Payload, mapping, i.data)];
      }
      rest := rest[1..];
    }
    EmitNone(mapping);
    assert outs + [] == outs;
  }

  lemma EmitNone(mapping: Endpoint)
    ensures Emit([], mapping) == []
  {
  }

  // ---- Queue conservation ----

  /** A queue with what is left of its budget. */
  datatype Slot = Slot(queue: seq<Item>, left: nat)

  const EMPTY_SLOT := Slot([], MAX_QUEUE)

  function SlotOf(p: Peer): Slot {
    Slot(p.queue, p.queueLeft)
  }

  function Offer(s: Slot, i: Item): Slot {
    if |i.data| > s.left then s else Slot([i] + s.queue, s.left - |i.data|)
  }

  /** What can happen to a queue: nothing, a packet offered, a flush, the loss of the whole entry. */
  datatype QueueOp = Skip | Add(item: Item) | Flush(mapping: Endpoint) | Lose

  /** Packets, in order of arrival, that left a queue together: towards a mapping, or lost with their entry. */
  datatype Batch = Batch(items: seq<Item>, to: Option<Endpoint>)

  /** The queue; every packet it ever accepted; those still waiting, in order of arrival; the batches that left;
      and what was emitted. */
  datatype QueueRun = QueueRun(slot: Slot, accepted: seq<Item>, waiting: seq<Item>, gone: seq<Batch>, outs: seq<Out>)

  function Reversed(s: seq<Item>): seq<Item> {
    if s == [] then [] else Reversed(s[1..]) + [s[0]]
  }

  function RunQueue(ops: seq<QueueOp>): QueueRun {
    if ops == [] then QueueRun(EMPTY_SLOT, [], [], [], [])
    else
      var r := RunQueue(ops[..|ops| - 1]);
      match ops[|ops| - 1]
      case Skip => r
      case Add(i) =>
        if |i.data| > r.slot.left then r
        else r.(slot := Offer(r.slot, i), accepted := r.accepted + [i], waiting := r.waiting + [i])
      case Flush(m) =>
        r.(slot := EMPTY_SLOT, waiting := [], gone := r.gone + [Batch(r.waiting, Some(m))],
           outs := r.outs + Emit(r.slot.queue, m))
      case Lose =>
        r.(slot := EMPTY_SLOT, waiting := [], gone := r.gone + [Batch(r.waiting, None)])
  }

  function Joined(gone: seq<Batch>): seq<Item> {
    if gone == [] then [] else Joined(gone[..|gone| - 1]) + gone[|gone| - 1].items
  }

  /** The output that a list of batches must produce: each flushed one, newest packet first. */
  function Expected(gone: seq<Batch>): seq<Out> {
    if gone == [] then []
    else
      var last := gone[|gone| - 1];
      Expected(gone[..|gone| - 1]) + if last.to.Some? then Emit(Reversed(last.items), last.to.value) else []
  }

  lemma {:induction false} ReversedSnoc(s: seq<Item>, i: Item)
    ensures Reversed(s + [i]) == [i] + Reversed(s)
  {
    if s == [] {
      assert s + [i] == [i] && [i][1..] == [];
      assert Reversed([i]) == Reversed([]) + [i];
    } else {
      assert (s + [i])[1..] == s[1..] + [i];
      ReversedSnoc(s[1..], i);
    }
  }

  lemma LeftWith(gone: seq<Batch>, b: Batch)
    ensures Joined(gone + [b]) == Joined(gone) + b.items
    ensures Expected(gone + [b])
         == Expected(gone) + if b.to.Some? then Emit(Reversed(b.items), b.to.value) else []
  {
    assert (gone + [b])[..|gone|] == gone;
  }

  /** In every run: the byte budget is exact; the queue holds the waiting packets in reverse order of arrival;
      every packet accepted has left in exactly one batch or is waiting, in order of arrival; and what was emitted
      is the flushed batches, each reversed, each once. */
  lemma {:induction false} QueueConservation(ops: seq<QueueOp>)
    ensures var r := RunQueue(ops);
            && r.slot.left + Total(r.slot.queue) == MAX_QUEUE && r.slot.queue == Reversed(r.waiting)
            && r.accepted == Joined(r.gone) + r.waiting && r.outs == Expected(r.gone)
    decreases |ops|
  {
    hide Emit, Joined, Expected, Reversed;
    if ops == [] {
      EmptyRun();
    } else {
      var before := ops[..|ops| - 1];
      QueueConservation(before);
      var r := RunQueue(before);
      EmptyRun();
      match ops[|ops| - 1]
      case Skip =>
      case Add(i) =>
        ReversedSnoc(r.waiting, i);
        assert ([i] + r.slot.queue)[1..] == r.slot.queue;
        assert Joined(r.gone) + (r.waiting + [i]) == Joined(r.gone) + r.waiting + [i];
      case Flush(m) =>
        LeftWith(r.gone, Batch(r.waiting, Some(m)));
        assert Joined(r.gone) + r.waiting + [] == Joined(r.gone) + r.waiting;
      case Lose =>
        LeftWith(r.gone, Batch(r.waiting, None));
        assert Joined(r.gone) + r.waiting + [] == Joined(r.gone) + r.waiting;
        assert r.outs + [] == r.outs;
    }
  }

  lemma EmptyRun()
    ensures Reversed([]) == [] && Joined([]) == [] && Expected([]) == [] && Total([]) == 0
  {
  }

  // ---- Rate limits ----

  datatype Grant = Yes | Later | Never                   // 0, 1 and -1

  /** `IsValid` */
  predicate IsFresh(p: Peer, now: nat)
    requires p.lastRx.Set? && p.lastRx.v <= now && p.local.Set?
  {
    now - p.lastRx.v <= if p.local.v then 600 else 30
  }

  predicate BubbleReady(p: Peer, now: nat) {
    p.bubbles.Set? && (p.bubbles.v > 0 ==> p.lastTx.Set? && p.lastTx.v <= now)
  }

  /** `CountBubble` */
  function CountBubble(p: Peer, now: nat): (Grant, Peer)
    requires BubbleReady(p, now)
  {
    if p.bubbles.v >= 4 && now - p.lastTx.v <= 300 then (Never, p)
    else if 0 < p.bubbles.v < 4 && now - p.lastTx.v <= 2 then (Later, p)
    else
      var n := if p.bubbles.v >= 4 then 0 else p.bubbles.v;
      (Yes, p.(lastTx := Set(now), bubbles := Set(n + 1), log := p.log.(bubbles := p.log.bubbles + [now])))
  }

  predicate PingReady(p: Peer, now: nat) {
    p.pings.Set? && (p.pings.v > 0 ==> p.lastPing.Set? && p.lastPing.v <= now)
  }

  /** `CountPing` */
  function CountPing(p: Peer, now: nat): (Grant, Peer)
    requires PingReady(p, now)
  {
    if p.pings.v >= 4 then (Never, p)
    else if 0 < p.pings.v && now - p.lastPing.v <= 2 then (Later, p)
    else (Yes, p.(lastPing := Set(now), pings := Set(p.pings.v + 1), log := p.log.(pings := p.log.pings + [now])))
  }

  function ResetBubbles(p: Peer): Peer {
    p.(bubbles := Set(0), log := p.log.(bubbles := []))
  }

  /** `peer->bubbles = peer->pings = 0` */
  function ResetCounters(p: Peer): Peer {
    p.(bubbles := Set(0), pings := Set(0), log := p.log.(bubbles := [], pings := []))
  }

  /** How far apart the i-th and the next grant must be: the counter wraps after every fourth. */
  function Gap(i: nat): nat {
    if (i + 1) % 4 == 0 then 300 else 2
  }

  ghost predicate Spaced(t: seq<nat>) {
    forall i {:trigger Gap(i)} :: 0 <= i < |t| - 1 ==> t[i] + Gap(i) < t[i + 1]
  }

  /** The counter tells how many bubbles were granted since its reset, the last of them no later than `lastTx`,
      which transmissions may have moved on. */
  ghost predicate BubbleLaw(p: Peer, clock: nat) {
    && p.bubbles.Set?
    && (p.lastTx.Set? ==> p.lastTx.v <= clock)
    && Spaced(p.log.bubbles)
    && var n := |p.log.bubbles|;
    && p.bubbles.v == (if n == 0 then 0 else (n - 1) % 4 + 1)
    && (n > 0 ==> p.lastTx.Set? && p.log.bubbles[n - 1] <= p.lastTx.v)
  }

  ghost predicate PingLaw(p: Peer, clock: nat) {
    var t := p.log.pings;
    && (p.lastPing.Set? ==> p.lastPing.v <= clock)
    && |t| == (if p.pings.Set? then p.pings.v else 0) <= 4
    && (forall i :: 0 <= i < |t| - 1 ==> t[i] + 2 < t[i + 1])
    && (|t| > 0 ==> p.lastPing == Set(t[|t| - 1]))
  }

  lemma SpacedSnoc(t: seq<nat>, now: nat)
    requires Spaced(t) && (|t| > 0 ==> t[|t| - 1] + Gap(|t| - 1) < now)
    ensures Spaced(t + [now])
  {
  }

  /** `CountBubble` keeps its own law, despite transmissions having moved `lastTx`. */
  lemma CountBubbleLaw(p: Peer, now: nat)
    requires BubbleLaw(p, now)
    ensures BubbleReady(p, now) && BubbleLaw(CountBubble(p, now).1, now)
  {
    hide Spaced;
    var n := |p.log.bubbles|;
    if CountBubble(p, now).0 == Yes {
      assert n > 0 ==> (n % 4 == 0 <==> p.bubbles.v == 4);
      SpacedSnoc(p.log.bubbles, now);
    }
  }

  lemma CountPingLaw(p: Peer, now: nat)
    requires PingLaw(p, now) && p.pings.Set?
    ensures PingReady(p, now) && PingLaw(CountPing(p, now).1, now)
  {
  }

  /** When a bubble must be granted: if none was since the reset, or if the peer was last sent to more than two seconds
      ago, 300 after every fourth bubble.  Otherwise nothing changes, and there is no hope exactly after a fourth. */
  lemma BubbleGranted(p: Peer, now: nat)
    requires BubbleLaw(p, now)
    ensures BubbleReady(p, now)
    ensures var (grant, q) := CountBubble(p, now);
            var n := |p.log.bubbles|;
            && (grant == Yes <==> n == 0 || p.lastTx.v + (if n % 4 == 0 then 300 else 2) < now)
            && (grant == Never <==> n > 0 && n % 4 == 0 && now <= p.lastTx.v + 300)
            && (grant == Yes ==> q.lastTx == Set(now) && q.log.bubbles == p.log.bubbles + [now])
            && (grant != Yes ==> q == p)
  {
    hide Spaced;
    var n := |p.log.bubbles|;
    assert n > 0 ==> (n % 4 == 0 <==> p.bubbles.v == 4);
  }

  /** When a ping must be granted: fewer than four were since the reset, the last of them more than two seconds ago. */
  lemma PingGranted(p: Peer, now: nat)
    requires PingLaw(p, now) && p.pings.Set?
    ensures PingReady(p, now)
    ensures var (grant, q) := CountPing(p, now);
            var n := |p.log.pings|;
            && (grant == Yes <==> n < 4 && (n == 0 || p.log.pings[n - 1] + 2 < now))
            && (grant == Never <==> n == 4)
            && (grant == Yes ==> q.log.pings == p.log.pings + [now])
            && (grant != Yes ==> q == p)
  {
    CountPingLaw(p, now);
  }

  /** Between resets: any two consecutive bubbles are more than two seconds apart, any five span more than
      300 seconds, the counter fits its three bits. */
  lemma BubbleRates(p: Peer, clock: nat, i: nat)
    requires BubbleLaw(p, clock)
    ensures i + 1 < |p.log.bubbles| ==> p.log.bubbles[i] + 2 < p.log.bubbles[i + 1]
    ensures i + 4 < |p.log.bubbles| ==> p.log.bubbles[i] + 300 < p.log.bubbles[i + 4]
    ensures p.bubbles.v <= 4
  {
    var t := p.log.bubbles;
    assert Gap(i) >= 2;
    if i + 4 < |t| {
      assert Gap(i + 1) >= 2 && Gap(i + 2) >= 2 && Gap(i + 3) >= 2;
      assert Gap(i) == 300 || Gap(i + 1) == 300 || Gap(i + 2) == 300 || Gap(i + 3) == 300;
    }
  }

  // ---- Error rate limit ----

  /** `ratelimit` */
  datatype Limiter = Limiter(count: nat, last: nat)

  const ERROR_RATE: nat := 10                            // 1000 / ICMP_RATE_LIMIT_MS

  /** `teredo_send_unreach`: at each new clock reading the budget is full again. */
  function Limit(l: Limiter, now: nat): (Limiter, bool) {
    var f := if now != l.last then Limiter(ERROR_RATE, now) else l;
    if f.count == 0 then (f, false) else (Limiter(f.count - 1, f.last), true)
  }

  function CountAt(times: seq<nat>, t: nat): nat {
    if times == [] then 0
    else (if times[|times| - 1] == t then 1 else 0) + CountAt(times[..|times| - 1], t)
  }

  lemma {:induction false} CountBeyond(times: seq<nat>, t: nat)
    requires forall i :: 0 <= i < |times| ==> times[i] < t
    ensures CountAt(times, t) == 0
  {
    if times != [] {
      CountBeyond(times[..|times| - 1], t);
    }
  }

  lemma CountSnoc(times: seq<nat>, now: nat, t: nat)
    ensures CountAt(times + [now], t) == CountAt(times, t) + if now == t then 1 else 0
  {
    assert (times + [now])[..|times|] == times;
  }

  ghost predicate Within(l: Limiter, sent: seq<nat>, t: nat) {
    && CountAt(sent, t) <= ERROR_RATE
    && CountAt(sent, l.last) + l.count <= ERROR_RATE
    && (forall i :: 0 <= i < |sent| ==> sent[i] <= l.last)
  }

  lemma LimitStep(l: Limiter, sent: seq<nat>, now: nat, t: nat)
    requires Within(l, sent, t) && l.last <= now
    ensures var (m, ok) := Limit(l, now);
            m.last == now && Within(m, if ok then sent + [now] else sent, t)
  {
    hide CountAt;
    if now != l.last {
      CountBeyond(sent, now);
    }
    CountSnoc(sent, now, t);
    CountSnoc(sent, now, now);
  }
}
