/** A client as a whole: its tunnel, driven by traffic and configuration, and its maintenance procedure, whose
    callback is the only writer of the tunnel's state (maintain.c, relay.c). */
module ClientRuns {
  import opened Net
  import opened Packets
  import opened Peers
  import opened PeerCache
  import opened Relay
  import opened RelayLaws
  import opened RelayRuns
  import OneEntry
  import M = Maintenance

  /** What the user of the tunnel is notified of: that it came up, with this address and MTU, or that it went down. */
  datatype Note = Came(addr: Addr, mtu: nat) | Went

  /** `told` says whether the callback was ever called; `notes` lists the notifications. */
  datatype Client = Client(tunnel: Tunnel, core: M.Core, told: bool, notes: seq<Note>)

  /** `ifaces` is what starting local discovery yields, should the turn bring the tunnel up. */
  datatype Action = Maintain(turn: M.Turn, ifaces: Option<seq<Iface>>) | Traffic(event: RelayRuns.Event)

  function Notes(outs: seq<Out>): seq<Note> {
    if outs == [] then []
    else
      (if outs[0].Up? then [Came(outs[0].addr, outs[0].mtu)] else if outs[0].Down? then [Went] else [])
      + Notes(outs[1..])
  }

  /** The callback, called for each announced state in turn. */
  function Announce(c: Client, states: seq<State>, ifaces: Option<seq<Iface>>): Client
    decreases |states|
  {
    if states == [] then c
    else
      var (t, outs) := StateChange(c.tunnel, states[0], ifaces);
      Announce(c.(tunnel := t, told := true, notes := c.notes + Notes(outs)), states[1..], ifaces)
  }

  predicate Allowed(c: Client, a: Action) {
    match a
    case Maintain(turn, _) => M.Handed(turn.arrivals)
    case Traffic(e) => Timely(c.tunnel, e) && !e.Change?
  }

  function Act(env: Env, g: M.Config, c: Client, a: Action): Client
    requires AllReady(c.tunnel) && Allowed(c, a)
  {
    match a
    case Maintain(turn, ifaces) =>
      var (core, states) := M.Step(g, c.core, turn);
      Announce(c.(core := core), states, ifaces)
    case Traffic(e) =>
      var (t, outs) := RelayRuns.Step(env, c.tunnel, e);
      c.(tunnel := t, notes := c.notes + Notes(outs))
  }

  // ---- Invariant ----

  /** Every down notification follows an up notification directly. */
  predicate Ordered(notes: seq<Note>) {
    forall i :: 0 <= i < |notes| && notes[i].Went? ==> i > 0 && notes[i - 1].Came?
  }

  /** The address of the last up notification. */
  function LastAddr(notes: seq<Note>): Option<Addr> {
    if notes == [] then None
    else
      var n := |notes| - 1;
      if notes[n].Came? then Some(notes[n].addr) else LastAddr(notes[..n])
  }

  /** The user of the tunnel knows what the tunnel's state is: up, with exactly this address and MTU, or down.  Local
      discovery, should it run, announces the address that the user was given last. */
  ghost predicate Informed(t: Tunnel, notes: seq<Note>) {
    && Ordered(notes)
    && (t.state.up <==> notes != [] && notes[|notes| - 1].Came?)
    && (t.state.up ==> notes[|notes| - 1] == Came(t.state.addr, t.state.mtu))
    && (t.discovery.Some? && LastAddr(notes).Some? ==> LastAddr(notes) == Some(t.discovery.value.src))
  }

  ghost predicate Coherent(g: M.Config, c: Client) {
    && c.tunnel.client && M.Sound(g, c.core)
    && (if c.told then c.tunnel.state == c.core.state
        else c.notes == [] && !c.tunnel.state.up && c.core.server == ZERO32)
    && Informed(c.tunnel, c.notes)
  }

  // ---- Traffic ----

  predicate Mute(outs: seq<Out>) {
    forall o :: o in outs ==> !o.Up? && !o.Down?
  }

  /** Datagrams and deliveries only. */
  predicate Plain(outs: seq<Out>) {
    forall o :: o in outs ==> o.Send? || o.Deliver?
  }

  lemma {:induction false} MuteNotes(outs: seq<Out>)
    requires Mute(outs)
    ensures Notes(outs) == []
  {
    if outs != [] {
      MuteNotes(outs[1..]);
    }
  }

  lemma {:induction false} EmitPlain(q: seq<Item>, m: Endpoint)
    ensures Plain(Emit(q, m))
  {
    if q != [] {
      EmitPlain(q[1..], m);
    }
  }

  lemma UntrustedMute(env: Env, t: Tunnel, io: Io, packet: Bytes, list: Cache<Peer>, p: Peer, created: bool)
    requires Connectable(t, io.now, packet, p)
    ensures Mute(TransmitUntrusted(env, t, io, packet, list, p, created).outs)
  {
    hide TxProbe, TxBubble, PunchHole, Multicast, Ping, Bubble, Limit;
    PunchHoleMute(env, t.state, Dst(packet), io);
    if t.discovery.Some? {
      MulticastMute(t.discovery.value);
    }
  }

  lemma PunchHoleMute(env: Env, s: State, dst: Addr, io: Io)
    ensures Mute(PunchHole(env, s, dst, io).0)
  {
    hide BubbleSource, Bubble;
  }

  lemma MulticastMute(d: Discovery)
    ensures Mute(Multicast(d))
  {
    hide Bubble;
  }

  lemma TransmitMute(env: Env, t: Tunnel, io: Io, packet: Bytes)
    requires AllReady(t) && t.clock <= io.now && |packet| >= 40
    ensures Mute(Transmit(env, t, io, packet).outs)
  {
    hide TransmitUntrusted, Limit, Touch;
    var (list, outcome) := Lookup(t.list, Dst(packet), true, io.memory, BLANK);
    TouchPeers(t.list, Dst(packet));
    if outcome != Missing {
      var p := if outcome == Created then Begin(BLANK) else list.peers[Dst(packet)];
      if Connectable(t, io.now, packet, p) {
        UntrustedMute(env, t, io, packet, list, p, outcome == Created);
      }
    }
  }

  lemma ReceiveFromPlain(env: Env, t: Tunnel, io: Io, p: Packet)
    requires AllReady(t) && t.clock <= io.now && WellFormed(p.ip6)
    requires if t.client then t.state.up else Src(p.ip6).prefix == t.state.addr.prefix
    ensures Plain(ReceiveFrom(env, t, io, p).outs)
  {
    hide Judge, CheckPing, Inner, Predecap, Emit, CountBubble, CountPing, Enqueue, Begin, Ping, Bubble,
      IsNeighbour, IsDiscoveryBubble, ResetBubbles, Touch;
    TouchPeers(t.list, Src(p.ip6));
    var k := Src(p.ip6);
    EmitPlain(BLANK.queue, p.source);
    if k in t.list.peers {
      EmitPlain(t.list.peers[k].queue, p.source);
    }
  }

  /** A reception sends and delivers; it reports no error and notifies no one. */
  lemma ReceivePlain(env: Env, t: Tunnel, io: Io, p: Packet)
    requires AllReady(t) && t.clock <= io.now
    ensures Plain(Receive(env, t, io, p).outs)
  {
    hide ReceiveFrom, BubbleOrigin, Bubble, AllReady;
    if WellFormed(p.ip6) && (if t.client then t.state.up else Src(p.ip6).prefix == t.state.addr.prefix) {
      ReceiveFromPlain(env, t, io, p);
    }
  }

  /** Traffic and configuration calls neither change the state of a client's tunnel nor notify anyone. */
  lemma TrafficKeepsState(env: Env, t: Tunnel, e: RelayRuns.Event)
    requires AllReady(t) && Timely(t, e) && t.client && !e.Change?
    ensures var (t', outs) := RelayRuns.Step(env, t, e);
            t'.state == t.state && t'.client && t'.discovery == t.discovery && Notes(outs) == []
  {
    hide AllReady, Transmit, ReceiveFrom, ReplyBubble, BubbleOrigin;
    match e
    case Tx(io, data) =>
      OneEntry.TxOnlyAt(env, t, io, data);
      TransmitMute(env, t, io, data);
      MuteNotes(RelayRuns.Step(env, t, e).1);
    case Rx(io, p) =>
      if WellFormed(p.ip6) && t.state.up {
        OneEntry.RxOnlyAt(env, t, io, p);
      }
      ReceivePlain(env, t, io, p);
      MuteNotes(RelayRuns.Step(env, t, e).1);
    case _ =>
  }

  /** The errors that the rate limiter counts are all there are: nothing but a transmission reports one. */
  lemma OnlyTransmissionsReportErrors(env: Env, t: Tunnel, e: RelayRuns.Event)
    requires AllReady(t) && Timely(t, e) && HasError(RelayRuns.Step(env, t, e).1)
    ensures e.Tx?
  {
    hide AllReady, Transmit, Receive;
    if e.Rx? {
      ReceivePlain(env, t, e.io, e.packet);
    }
  }

  // ---- Maintenance ----

  lemma AnnounceOne(g: M.Config, c: Client, s: State, ifaces: Option<seq<Iface>>)
    requires Informed(c.tunnel, c.notes) && c.tunnel.client
    ensures var c' := Announce(c, [s], ifaces);
            && c'.told && c'.tunnel.state == s && c'.core == c.core && c'.tunnel.client
            && c'.tunnel.netmask == c.tunnel.netmask && Informed(c'.tunnel, c'.notes)
            && (s.up ==>
                  c'.notes == c.notes + [Came(s.addr, s.mtu)] && Discovers(c.tunnel, s, ifaces, c'.tunnel.discovery))
            && (!s.up ==> && c'.notes == c.notes + (if c.tunnel.state.up then [Went] else [])
                          && c'.tunnel.discovery == c.tunnel.discovery)
  {
    var (t, outs) := StateChange(c.tunnel, s, ifaces);
    assert [s][1..] == [];
    assert outs == [] || outs[1..] == [];
    assert Notes(outs) == if s.up then [Came(s.addr, s.mtu)] else if c.tunnel.state.up then [Went] else [];
    if Notes(outs) != [] {
      assert (c.notes + Notes(outs))[..|c.notes|] == c.notes;
    } else {
      assert c.notes + Notes(outs) == c.notes;
    }
  }

  /** A discovery object exists afterwards if and only if discovery is configured and starts; it announces the new
      address on the interfaces that were found. */
  predicate Discovers(t: Tunnel, s: State, ifaces: Option<seq<Iface>>, d: Option<Discovery>) {
    && (d.Some? <==> t.netmask.Some? && ifaces.Some?)
    && (d.Some? ==> d.value.src == s.addr && d.value.ifaces == ifaces.value)
  }

  /** A turn announces a new server while down, then at most one state more. */
  lemma TurnShape(g: M.Config, c: M.Core, t: M.Turn)
    requires M.Sound(g, c) && g.retries > 0 && M.Handed(t.arrivals)
    ensures var (c', states) := M.Step(g, c, t);
            && |states| <= 2 && (states == [] && c.server == ZERO32 ==> c'.server == ZERO32)
  {
    hide M.Hearing, M.Sound;
    M.ResolveSound(g, c, t.answers);
  }

  lemma MaintainCoherent(g: M.Config, c: Client, turn: M.Turn, ifaces: Option<seq<Iface>>)
    requires Coherent(g, c) && g.retries > 0 && M.Handed(turn.arrivals)
    ensures var (core, states) := M.Step(g, c.core, turn);
            Coherent(g, Announce(c.(core := core), states, ifaces))
  {
    hide M.Step, M.Sound, Announce, Informed, Discovers;
    M.StepSound(g, c.core, turn);
    TurnShape(g, c.core, turn);
    var (core, states) := M.Step(g, c.core, turn);
    var c0 := c.(core := core);
    if |states| == 0 {
      assert Announce(c0, states, ifaces) == c0 by { Nothing(c0, ifaces); }
    } else {
      AnnounceOne(g, c0, states[0], ifaces);
      var c1 := Announce(c0, [states[0]], ifaces);
      AnnounceSplit(c0, states, ifaces);
      if |states| == 2 {
        AnnounceOne(g, c1, states[1], ifaces);
        assert states[1..] == [states[1]];
      } else {
        assert states[1..] == [];
        Nothing(c1, ifaces);
      }
    }
  }

  lemma Nothing(c: Client, ifaces: Option<seq<Iface>>)
    ensures Announce(c, [], ifaces) == c
  {
  }

  lemma AnnounceSplit(c: Client, states: seq<State>, ifaces: Option<seq<Iface>>)
    requires states != []
    ensures Announce(c, states, ifaces) == Announce(Announce(c, [states[0]], ifaces), states[1..], ifaces)
  {
    assert [states[0]][1..] == [];
  }

  // ---- Runs ----

  /** From the moment client mode is entered: any interleaving of maintenance turns, traffic and calls. */
  ghost predicate IsRun(env: Env, g: M.Config, cs: seq<Client>, acts: seq<Action>) {
    && |cs| == |acts| + 1 && g.retries > 0
    && (exists t: Tunnel :: !t.client && !t.state.up && cs[0] == Client(SetClientMode(t, true, true), M.START, false, []))
    && forall i :: 0 <= i < |acts| ==>
         Allowed(cs[i], acts[i]) && (AllReady(cs[i].tunnel) ==> cs[i + 1] == Act(env, g, cs[i], acts[i]))
  }

  /** The reception that an action is, if it is one, as noted in the state it found. */
  function ReceptionOf(c: Client, a: Action): set<Reception> {
    if a.Traffic? && a.event.Rx? then {Noted(c.tunnel, a.event.io, a.event.packet)} else {}
  }

  /** The receptions of a run. */
  function Received(cs: seq<Client>, acts: seq<Action>): set<Reception>
    requires |acts| <= |cs|
  {
    if acts == [] then {}
    else
      var n := |acts| - 1;
      Received(cs, acts[..n]) + ReceptionOf(cs[n], acts[n])
  }

  /** In every run: the laws hold of every peer, trust having come from receptions of this run; the maintenance
      invariant holds; once the callback was called, the tunnel's copy of the state
      is the maintenance procedure's; a down notification never comes first, nor twice without an up between; and the
      last notification is up, with the maintenance procedure's address and MTU, exactly while that is up. */
  lemma {:induction false} EveryRun(env: Env, g: M.Config, cs: seq<Client>, acts: seq<Action>, n: nat)
    requires IsRun(env, g, cs, acts) && n <= |acts|
    ensures Inv(env, Received(cs, acts[..n]), cs[n].tunnel) && Coherent(g, cs[n])
    ensures var c := cs[n];
            && (c.core.state.up <==> c.notes != [] && c.notes[|c.notes| - 1].Came?)
            && (c.core.state.up ==> c.notes[|c.notes| - 1] == Came(c.core.state.addr, c.core.state.mtu))
    decreases n
  {
    hide Inv, Coherent, Act, AllReady, ReceptionOf;
    if n == 0 {
      StartsWell(env, g, cs[0]);
    } else {
      var i := n - 1;
      var seen := Received(cs, acts[..i]);
      EveryRun(env, g, cs, acts, i);
      InvReady(env, seen, cs[i].tunnel);
      assert cs[i + 1] == Act(env, g, cs[i], acts[i]);
      ActKeeps(env, g, seen, cs[i], acts[i]);
      assert acts[..n][..i] == acts[..i] && acts[..n][i] == acts[i];
    }
    UserKnows(g, cs[n]);
  }

  lemma UserKnows(g: M.Config, c: Client)
    requires Coherent(g, c)
    ensures c.core.state.up <==> c.notes != [] && c.notes[|c.notes| - 1].Came?
    ensures c.core.state.up ==> c.notes[|c.notes| - 1] == Came(c.core.state.addr, c.core.state.mtu)
  {
  }

  lemma StartsWell(env: Env, g: M.Config, c: Client)
    requires g.retries > 0
    requires exists t: Tunnel :: !t.client && !t.state.up && c == Client(SetClientMode(t, true, true), M.START, false, [])
    ensures Inv(env, {}, c.tunnel) && Coherent(g, c)
  {
  }

  lemma ActKeeps(env: Env, g: M.Config, seen: set<Reception>, c: Client, a: Action)
    requires Inv(env, seen, c.tunnel) && Coherent(g, c) && Allowed(c, a) && g.retries > 0
    ensures AllReady(c.tunnel)
    ensures Inv(env, seen + ReceptionOf(c, a), Act(env, g, c, a).tunnel) && Coherent(g, Act(env, g, c, a))
  {
    hide Inv, AllReady, RelayRuns.Step, M.Step, Announce, Ordered, LastAddr, M.Sound, M.Handed;
    InvReady(env, seen, c.tunnel);
    match a
    case Maintain(turn, ifaces) =>
      MaintainCoherent(g, c, turn, ifaces);
      assert seen + ReceptionOf(c, a) == seen;
      var (core, states) := M.Step(g, c.core, turn);
      AnnounceInv(env, seen, c.(core := core), states, ifaces);
    case Traffic(e) =>
      assert seen + ReceptionOf(c, a) == if e.Rx? then seen + {Noted(c.tunnel, e.io, e.packet)} else seen;
      StepKeeps(env, seen, c.tunnel, e);
      TrafficKeepsState(env, c.tunnel, e);
      assert c.notes + [] == c.notes;
  }

  lemma {:induction false} AnnounceInv(env: Env, seen: set<Reception>, c: Client, states: seq<State>,
                                       ifaces: Option<seq<Iface>>)
    requires Inv(env, seen, c.tunnel)
    ensures Inv(env, seen, Announce(c, states, ifaces).tunnel)
    decreases |states|
  {
    hide Inv, StateChange;
    if states != [] {
      var (t, outs) := StateChange(c.tunnel, states[0], ifaces);
      ChangeKeeps(env, seen, c.tunnel, states[0], ifaces);
      AnnounceInv(env, seen, c.(tunnel := t, told := true, notes := c.notes + Notes(outs)), states[1..], ifaces);
    }
  }
}
