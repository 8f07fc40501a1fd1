/** Qualification and maintenance of a client (maintain.c; sections 5.2.1 and 5.2.5 of RFC 4380). */
module Maintenance {
  import opened Net
  import opened Packets
  import opened Relay
  import Advert

  /** What the procedure keeps between solicitations: the published state, the resolved server (zero if none),
      the solicitations unanswered in a row, and whether the silence was reported. */
  datatype Core = Core(state: State, server: W32, count: nat, blackhole: bool)

  /** Fixed for one procedure. */
  datatype Config = Config(host: ByteOrder, retries: nat, nonce: (nat, W32) -> Nonce8)

  /** What the world contributes to one turn of the endless loop: the answers of the resolver, the deadline of
      the solicitation, the packets handed over before it passes, the random flags, and what the uninitialised
      candidate address holds. */
  datatype Turn = Turn(answers: seq<Option<W32>>, deadline: nat, arrivals: seq<Packet>, flags: W16,
                       leftover: Addr)

  const START := Core(State(Addr(ZERO32, ZERO32, ZERO16, ZERO16, ZERO32), ZERO32, 0, false), ZERO32, 0, false)

  /** Every packet handed over is one that `teredo_maintenance_process` lets through. */
  predicate Handed(arrivals: seq<Packet>) {
    forall i :: 0 <= i < |arrivals| ==> WellFormed(arrivals[i].ip6) && Advert.IsMaintenance(arrivals[i])
  }

  // ---- The three parts of a turn ----

  /** Resolution: answers are tried until one is a global address, which is announced at once. */
  function Resolve(c: Core, answers: seq<Option<W32>>): (Core, seq<State>) {
    if c.server != ZERO32 || answers == [] then (c, [])
    else if answers[0].Some? && IsGlobalUnicast(answers[0].value) then
      var ip := answers[0].value;
      var s := c.state.(addr := c.state.addr.(server := ip));
      (c.(state := s, server := ip), [s])
    else Resolve(c, answers[1..])
  }

  datatype Heard = Silence | Advertised(addr: Addr, mtu: nat, ipv4: W32)

  /** Waiting: the first packet that is accepted ends it; the others still write the candidate address and MTU. */
  function Listen(g: Config, server: W32, nonce: Nonce8, arrivals: seq<Packet>, addr: Addr, mtu: nat): Heard
    requires Handed(arrivals)
  {
    if arrivals == [] then Silence
    else
      var r := Advert.MaintenanceRecv(g.host, arrivals[0], server, nonce, addr, mtu);
      if r.ok then Advertised(r.addr, r.mtu, arrivals[0].dest)
      else Listen(g, server, nonce, arrivals[1..], r.addr, r.mtu)
  }

  /** The twelve random bits of the flags. */
  function Randomised(f: W16): W16 {
    W16(f.b0 / 4 % 16 * 4, f.b1)
  }

  /** Update of the state machine. */
  function Settle(g: Config, c: Core, h: Heard, flags: W16): (Core, seq<State>) {
    match h
    case Silence =>
      if c.count + 1 < g.retries then (c.(count := c.count + 1), [])
      else if c.state.up then
        var s := c.state.(up := false);
        (Core(s, ZERO32, 0, true), [s])
      else (c.(count := 0, blackhole := true), [])
    case Advertised(a, mtu, ipv4) =>
      var same := a.(flags := c.state.addr.flags) == c.state.addr;
      var addr := a.(flags := if same then c.state.addr.flags else Randomised(flags));
      var c' := c.(count := 0, blackhole := false);
      if !c.state.up || addr != c.state.addr || mtu != c.state.mtu then
        var s := State(addr, ipv4, mtu, true);
        (c'.(state := s), [s])
      else (c', [])
  }

  /** What the turn hears, once a server is known. */
  function Hearing(g: Config, c: Core, t: Turn): Heard
    requires Handed(t.arrivals)
  {
    Listen(g, c.server, g.nonce(t.deadline, c.server), t.arrivals, t.leftover, 1280)
  }

  /** One turn, and the states it announces.  Without a server the loop is still resolving. */
  function Step(g: Config, c: Core, t: Turn): (Core, seq<State>)
    requires Handed(t.arrivals)
  {
    var (c1, n1) := Resolve(c, t.answers);
    if c1.server == ZERO32 then (c1, n1)
    else
      var (c2, n2) := Settle(g, c1, Hearing(g, c1, t), t.flags);
      (c2, n1 + n2)
  }

  // ---- Invariant ----

  predicate Masked(f: W16) {
    f.b0 < 64 && f.b0 % 4 == 0
  }

  predicate Sound(g: Config, c: Core) {
    && (c.state.up ==> c.server != ZERO32 && 1280 <= c.state.mtu <= 65535 && IsValidPrefix(g.host, c.state.addr.prefix))
    && (c.server != ZERO32 ==> IsGlobalUnicast(c.server) && c.state.addr.server == c.server)
    && Masked(c.state.addr.flags)
    && c.count < g.retries
  }

  lemma {:induction false} ResolveSound(g: Config, c: Core, answers: seq<Option<W32>>)
    requires Sound(g, c)
    ensures var (c', ns) := Resolve(c, answers);
            && Sound(g, c') && c'.state.up == c.state.up && c'.count == c.count
            && (if ns == [] then c' == c else c.server == ZERO32 != c'.server && ns == [c'.state])
    decreases |answers|
  {
    hide IsValidPrefix;
    if c.server == ZERO32 && answers != [] {
      ResolveSound(g, c, answers[1..]);
    }
  }

  predicate Usable(answer: Option<W32>) {
    answer.Some? && IsGlobalUnicast(answer.value)
  }

  /** Without a server, the first usable answer becomes the server and is announced; without one nothing changes. */
  lemma {:induction false} ResolvesFirst(c: Core, answers: seq<Option<W32>>, i: nat)
    requires c.server == ZERO32 && i <= |answers| && forall j :: 0 <= j < i ==> !Usable(answers[j])
    ensures i == |answers| ==> Resolve(c, answers) == (c, [])
    ensures i < |answers| && Usable(answers[i]) ==>
      var s := c.state.(addr := c.state.addr.(server := answers[i].value));
      Resolve(c, answers) == (c.(state := s, server := answers[i].value), [s])
    decreases |answers|
  {
    hide IsGlobalUnicast;
    if i > 0 {
      ResolvesFirst(c, answers[1..], i - 1);
    }
  }

  /** Whatever is accepted names the solicited server, and its MTU is in range although a rejected packet may
      have set it. */
  lemma {:induction false} ListenBounds(g: Config, server: W32, nonce: Nonce8, arrivals: seq<Packet>, addr: Addr,
                                        mtu: nat)
    requires Handed(arrivals) && server != ZERO32 && 1280 <= mtu <= 65535
    ensures var h := Listen(g, server, nonce, arrivals, addr, mtu);
            h.Advertised? ==> && 1280 <= h.mtu <= 65535 && h.addr.server == server && h.addr.flags == ZERO16
                              && IsValidPrefix(g.host, h.addr.prefix)
    decreases |arrivals|
  {
    if arrivals != [] {
      var p := arrivals[0];
      var r := Advert.MaintenanceRecv(g.host, p, server, nonce, addr, mtu);
      if r.ok {
        var i, prefix := Advert.AcceptedAdvert(g.host, p, server, nonce, addr, mtu);
      } else {
        MtuBounds(g.host, p, server, nonce, addr, mtu);
        ListenBounds(g, server, nonce, arrivals[1..], r.addr, r.mtu);
      }
    }
  }

  /** The candidate starts as whatever the stack held; neither acceptance nor the address depends on it. */
  lemma {:induction false} ListenIgnoresLeftovers(g: Config, server: W32, nonce: Nonce8, arrivals: seq<Packet>,
                                                  a: Addr, b: Addr, m: nat, n: nat)
    requires Handed(arrivals) && server != ZERO32
    ensures var h, k := Listen(g, server, nonce, arrivals, a, m), Listen(g, server, nonce, arrivals, b, n);
            h.Advertised? == k.Advertised? && (h.Advertised? ==> h.addr == k.addr && h.ipv4 == k.ipv4)
    decreases |arrivals|
  {
    hide Advert.MaintenanceRecv;
    if arrivals != [] {
      var p := arrivals[0];
      Advert.AcceptanceIgnoresLeftovers(g.host, p, server, nonce, a, b, m, n);
      var r, q := Advert.MaintenanceRecv(g.host, p, server, nonce, a, m),
                  Advert.MaintenanceRecv(g.host, p, server, nonce, b, n);
      ListenIgnoresLeftovers(g, server, nonce, arrivals[1..], r.addr, q.addr, r.mtu, q.mtu);
    }
  }

  // ---- Whose MTU ----

  /** The candidate address once the first `j` arrivals were looked at and rejected. */
  function Candidate(g: Config, server: W32, nonce: Nonce8, arrivals: seq<Packet>, addr: Addr, j: nat): Addr
    requires Handed(arrivals) && j <= |arrivals|
  {
    if j == 0 then addr
    else
      var a := Candidate(g, server, nonce, arrivals, addr, j - 1);
      Advert.MaintenanceRecv(g.host, arrivals[j - 1], server, nonce, a, 0).addr
  }

  /** Arrival `j` writes the MTU, whether or not it is accepted. */
  predicate Writes(g: Config, server: W32, nonce: Nonce8, arrivals: seq<Packet>, addr: Addr, j: nat)
    requires Handed(arrivals) && j < |arrivals|
  {
    Advert.Writes(g.host, arrivals[j], nonce, Candidate(g, server, nonce, arrivals, addr, j))
  }

  /** The MTU announced by the last of the first `j` arrivals that wrote one, else the initial one. */
  function LastMtu(g: Config, server: W32, nonce: Nonce8, arrivals: seq<Packet>, addr: Addr, mtu: nat, j: nat): nat
    requires Handed(arrivals) && j <= |arrivals|
  {
    if j == 0 then mtu
    else if Writes(g, server, nonce, arrivals, addr, j - 1) then Advert.OwnMtu(arrivals[j - 1])
    else LastMtu(g, server, nonce, arrivals, addr, mtu, j - 1)
  }

  /** Looking at one arrival more. */
  lemma {:induction false} Shifted(g: Config, server: W32, nonce: Nonce8, arrivals: seq<Packet>, addr: Addr, mtu: nat,
                                   j: nat)
    requires Handed(arrivals) && 0 < |arrivals| && j < |arrivals|
    ensures var r := Advert.MaintenanceRecv(g.host, arrivals[0], server, nonce, addr, mtu);
            && Candidate(g, server, nonce, arrivals, addr, j + 1)
               == Candidate(g, server, nonce, arrivals[1..], r.addr, j)
            && LastMtu(g, server, nonce, arrivals, addr, mtu, j + 1)
               == LastMtu(g, server, nonce, arrivals[1..], r.addr, r.mtu, j)
    decreases j
  {
    hide Advert.MaintenanceRecv, Advert.Writes, Advert.OwnMtu;
    AddrIgnoresMtu(g.host, arrivals[0], server, nonce, addr, mtu);
    Advert.MtuWritten(g.host, arrivals[0], server, nonce, addr, mtu);
    if j == 0 {
      assert Candidate(g, server, nonce, arrivals, addr, 0) == addr;
      assert LastMtu(g, server, nonce, arrivals, addr, mtu, 0) == mtu;
    } else {
      Shifted(g, server, nonce, arrivals, addr, mtu, j - 1);
      assert arrivals[1..][j - 1] == arrivals[j];
    }
  }

  lemma AddrIgnoresMtu(host: ByteOrder, p: Packet, server: W32, nonce: Nonce8, addr: Addr, mtu: nat)
    requires WellFormed(p.ip6) && p.auth.Some?
    ensures Advert.MaintenanceRecv(host, p, server, nonce, addr, mtu).addr
         == Advert.MaintenanceRecv(host, p, server, nonce, addr, 0).addr
  {
    hide Advert.WalkOptions, Advert.OptionsOf, IsValidPrefix;
  }

  /** None of the first `i` arrivals is accepted. */
  ghost predicate AllRejected(g: Config, server: W32, nonce: Nonce8, arrivals: seq<Packet>, addr: Addr, mtu: nat, i: nat)
    requires Handed(arrivals) && i <= |arrivals|
  {
    forall j :: 0 <= j < i ==>
      !Advert.MaintenanceRecv(g.host, arrivals[j], server, nonce, Candidate(g, server, nonce, arrivals, addr, j), mtu).ok
  }

  lemma FirstRejected(g: Config, server: W32, nonce: Nonce8, arrivals: seq<Packet>, addr: Addr, mtu: nat, i: nat)
    requires Handed(arrivals) && i < |arrivals|
    requires var r := Advert.MaintenanceRecv(g.host, arrivals[0], server, nonce, addr, mtu);
             !r.ok && AllRejected(g, server, nonce, arrivals[1..], r.addr, r.mtu, i)
    ensures AllRejected(g, server, nonce, arrivals, addr, mtu, i + 1)
  {
    hide Advert.MaintenanceRecv, LastMtu;
    var r := Advert.MaintenanceRecv(g.host, arrivals[0], server, nonce, addr, mtu);
    forall j | 0 < j <= i
      ensures !Advert.MaintenanceRecv(g.host, arrivals[j], server, nonce,
                                      Candidate(g, server, nonce, arrivals, addr, j), mtu).ok
    {
      assert arrivals[1..][j - 1] == arrivals[j];
      Shifted(g, server, nonce, arrivals, addr, mtu, j - 1);
      OkIgnoresMtu(g.host, arrivals[j], server, nonce, Candidate(g, server, nonce, arrivals, addr, j), mtu, r.mtu);
    }
    assert Candidate(g, server, nonce, arrivals, addr, 0) == addr;
  }

  /** Which arrival ends the wait, and the MTU it ends with: the last one written, be it by this arrival or by an
      earlier one that was rejected. */
  lemma {:induction false} ListenMtu(g: Config, server: W32, nonce: Nonce8, arrivals: seq<Packet>, addr: Addr, mtu: nat)
      returns (i: nat)
    requires Handed(arrivals) && Listen(g, server, nonce, arrivals, addr, mtu).Advertised?
    ensures i < |arrivals|
    ensures var h := Listen(g, server, nonce, arrivals, addr, mtu);
            var a := Candidate(g, server, nonce, arrivals, addr, i);
            && Advert.MaintenanceRecv(g.host, arrivals[i], server, nonce, a, mtu).ok
            && h.ipv4 == arrivals[i].dest
            && h.mtu == LastMtu(g, server, nonce, arrivals, addr, mtu, i + 1)
    ensures AllRejected(g, server, nonce, arrivals, addr, mtu, i)
    decreases |arrivals|
  {
    hide Advert.MaintenanceRecv, Advert.Writes, Advert.OwnMtu;
    var r := Advert.MaintenanceRecv(g.host, arrivals[0], server, nonce, addr, mtu);
    if r.ok {
      i := 0;
      Advert.MtuWritten(g.host, arrivals[0], server, nonce, addr, mtu);
      assert LastMtu(g, server, nonce, arrivals, addr, mtu, 0) == mtu;
    } else {
      i := ListenMtu(g, server, nonce, arrivals[1..], r.addr, r.mtu);
      Shifted(g, server, nonce, arrivals, addr, mtu, i);
      Shifted(g, server, nonce, arrivals, addr, mtu, i + 1);
      OkIgnoresMtu(g.host, arrivals[i + 1], server, nonce, Candidate(g, server, nonce, arrivals, addr, i + 1), mtu, r.mtu);
      FirstRejected(g, server, nonce, arrivals, addr, mtu, i);
      i := i + 1;
    }
  }

  /** Arrivals that are all rejected do not keep a later one from being heard. */
  lemma {:induction false} ListenSkips(g: Config, server: W32, nonce: Nonce8, pre: seq<Packet>, p: Packet,
                                       post: seq<Packet>, addr: Addr, mtu: nat) returns (a: Addr, m: nat)
    requires Handed(pre + [p] + post) && Handed(pre) && Listen(g, server, nonce, pre, addr, mtu).Silence?
    ensures WellFormed(p.ip6) && p.auth.Some?
    ensures var r := Advert.MaintenanceRecv(g.host, p, server, nonce, a, m);
            r.ok ==> Listen(g, server, nonce, pre + [p] + post, addr, mtu) == Advertised(r.addr, r.mtu, p.dest)
    decreases |pre|
  {
    hide Advert.MaintenanceRecv;
    var all := pre + [p] + post;
    if pre == [] {
      a, m := addr, mtu;
      assert all[0] == p;
    } else {
      assert all[0] == pre[0] && all[1..] == pre[1..] + [p] + post;
      var r := Advert.MaintenanceRecv(g.host, pre[0], server, nonce, addr, mtu);
      a, m := ListenSkips(g, server, nonce, pre[1..], p, post, r.addr, r.mtu);
    }
  }

  lemma OkIgnoresMtu(host: ByteOrder, p: Packet, server: W32, nonce: Nonce8, addr: Addr, m: nat, n: nat)
    requires WellFormed(p.ip6) && p.auth.Some?
    ensures Advert.MaintenanceRecv(host, p, server, nonce, addr, m).ok
         == Advert.MaintenanceRecv(host, p, server, nonce, addr, n).ok
  {
    hide Advert.WalkOptions, Advert.OptionsOf, IsValidPrefix;
  }

  /** The MTU is the accepted advertisement's own -- its option, or the default if it has none -- exactly if it has
      the option, or if the last earlier arrival that wrote an MTU, should there be one, wrote the default. */
  lemma MtuIsOwnExactly(g: Config, server: W32, nonce: Nonce8, arrivals: seq<Packet>, addr: Addr) returns (i: nat)
    requires Handed(arrivals) && Listen(g, server, nonce, arrivals, addr, 1280).Advertised?
    ensures i < |arrivals|
    ensures var a := Candidate(g, server, nonce, arrivals, addr, i);
            Advert.MaintenanceRecv(g.host, arrivals[i], server, nonce, a, 1280).ok
    ensures AllRejected(g, server, nonce, arrivals, addr, 1280, i)
    ensures var own := Advert.OwnMtu(arrivals[i]);
            Listen(g, server, nonce, arrivals, addr, 1280).mtu == (if own != 0 then own else 1280)
            <==> || own != 0
                 || forall j :: 0 <= j < i && LastWriter(g, server, nonce, arrivals, addr, i, j) ==>
                      Advert.OwnMtu(arrivals[j]) == 1280
  {
    hide Advert.MaintenanceRecv, Advert.Writes, Advert.OwnMtu, Listen, LastWriter, Writes, AllRejected;
    i := ListenMtu(g, server, nonce, arrivals, addr, 1280);
    AcceptedWrites(g, server, nonce, arrivals, addr, i);
    LastMtuIs(g, server, nonce, arrivals, addr, i);
  }

  /** Of the first `i` arrivals, `j` is the last to write an MTU. */
  ghost predicate LastWriter(g: Config, server: W32, nonce: Nonce8, arrivals: seq<Packet>, addr: Addr, i: nat, j: nat)
    requires Handed(arrivals) && j < i <= |arrivals|
  {
    && Writes(g, server, nonce, arrivals, addr, j)
    && forall k :: j < k < i ==> !Writes(g, server, nonce, arrivals, addr, k)
  }

  lemma AcceptedWrites(g: Config, server: W32, nonce: Nonce8, arrivals: seq<Packet>, addr: Addr, i: nat)
    requires Handed(arrivals) && i < |arrivals|
    requires var a := Candidate(g, server, nonce, arrivals, addr, i);
             Advert.MaintenanceRecv(g.host, arrivals[i], server, nonce, a, 1280).ok
    ensures Writes(g, server, nonce, arrivals, addr, i) <==> Advert.OwnMtu(arrivals[i]) != 0
  {
    hide Advert.OwnMtu, Advert.WalkOptions, Advert.OptionsOf, IsValidPrefix, Candidate;
  }

  lemma {:induction false} LastMtuIs(g: Config, server: W32, nonce: Nonce8, arrivals: seq<Packet>, addr: Addr, i: nat)
    requires Handed(arrivals) && i <= |arrivals|
    ensures LastMtu(g, server, nonce, arrivals, addr, 1280, i) == 1280
       <==> forall j :: 0 <= j < i && LastWriter(g, server, nonce, arrivals, addr, i, j) ==>
              Advert.OwnMtu(arrivals[j]) == 1280
    decreases i
  {
    hide Advert.OwnMtu, Writes;
    if i > 0 {
      LastMtuIs(g, server, nonce, arrivals, addr, i - 1);
      if Writes(g, server, nonce, arrivals, addr, i - 1) {
        assert LastWriter(g, server, nonce, arrivals, addr, i, i - 1);
      } else {
        assert forall j :: 0 <= j < i - 1 ==> (LastWriter(g, server, nonce, arrivals, addr, i, j)
                                               <==> LastWriter(g, server, nonce, arrivals, addr, i - 1, j));
      }
    }
  }

  lemma MtuBounds(host: ByteOrder, p: Packet, server: W32, nonce: Nonce8, addr: Addr, mtu: nat)
    requires WellFormed(p.ip6) && p.auth.Some? && 1280 <= mtu <= 65535
    ensures 1280 <= Advert.MaintenanceRecv(host, p, server, nonce, addr, mtu).mtu <= 65535
  {
    if Advert.LooksLikeAdvert(p) {
      Advert.WalkBounds(Advert.OptionsOf(p.ip6), Advert.Walk(true, addr.(server := ZERO32), 0));
    }
  }

  lemma SettleSound(g: Config, c: Core, h: Heard, flags: W16)
    requires Sound(g, c) && g.retries > 0 && c.server != ZERO32
    requires h.Advertised? ==>
      1280 <= h.mtu <= 65535 && h.addr.server == c.server && IsValidPrefix(g.host, h.addr.prefix)
    ensures var (c', ns) := Settle(g, c, h, flags);
            Sound(g, c') && (if ns == [] then c'.state == c.state else ns == [c'.state])
  {
    hide IsGlobalUnicast, IsValidPrefix;
  }

  /** A turn keeps the invariant, and the last state it announces is the one it leaves. */
  lemma StepSound(g: Config, c: Core, t: Turn)
    requires Sound(g, c) && g.retries > 0 && Handed(t.arrivals)
    ensures var (c', ns) := Step(g, c, t);
            Sound(g, c') && (if ns == [] then c'.state == c.state else ns[|ns| - 1] == c'.state)
  {
    hide Sound, Settle, Resolve, Handed, Listen;
    ResolveSound(g, c, t.answers);
    var c1 := Resolve(c, t.answers).0;
    if c1.server != ZERO32 {
      ListenBounds(g, c1.server, g.nonce(t.deadline, c1.server), t.arrivals, t.leftover, 1280);
      SettleSound(g, c1, Hearing(g, c1, t), t.flags);
    }
  }

  // ---- Runs ----

  /** States at the top of the loop, the turns between them, and what each turn announces. */
  ghost predicate IsRun(g: Config, cs: seq<Core>, ts: seq<Turn>, ns: seq<seq<State>>) {
    && |cs| == |ts| + 1 == |ns| + 1 && cs[0] == START && g.retries > 0
    && forall i :: 0 <= i < |ts| ==> Handed(ts[i].arrivals) && Step(g, cs[i], ts[i]) == (cs[i + 1], ns[i])
  }

  lemma {:induction false} EveryRun(g: Config, cs: seq<Core>, ts: seq<Turn>, ns: seq<seq<State>>, i: nat)
    requires IsRun(g, cs, ts, ns) && i <= |ts|
    ensures Sound(g, cs[i])
  {
    hide Step, Handed, IsGlobalUnicast, IsValidPrefix;
    if i > 0 {
      EveryRun(g, cs, ts, ns, i - 1);
      StepSound(g, cs[i - 1], ts[i - 1]);
    }
  }

  // ---- Outage ----

  /** The answer to the solicitation of a turn, if the turn gets as far as sending one. */
  function Answered(g: Config, c: Core, t: Turn): Option<Heard>
    requires Handed(t.arrivals)
  {
    var c1 := Resolve(c, t.answers).0;
    if c1.server == ZERO32 then None else Some(Hearing(g, c1, t))
  }

  /** Solicitations sent before turn `i` since the last accepted advertisement, all of them unanswered. */
  ghost function Unanswered(g: Config, cs: seq<Core>, ts: seq<Turn>, i: nat): nat
    requires i <= |ts| < |cs| && forall j :: 0 <= j < |ts| ==> Handed(ts[j].arrivals)
  {
    if i == 0 then 0
    else
      match Answered(g, cs[i - 1], ts[i - 1])
      case None => Unanswered(g, cs, ts, i - 1)
      case Some(Silence) => Unanswered(g, cs, ts, i - 1) + 1
      case Some(Advertised(_, _, _)) => 0
  }

  lemma ResolveKeeps(c: Core, answers: seq<Option<W32>>)
    requires c.server != ZERO32
    ensures Resolve(c, answers) == (c, [])
  {
  }

  /** One turn of a procedure that is up, or comes up. */
  lemma StepCounts(g: Config, c: Core, t: Turn)
    requires Sound(g, c) && g.retries > 0 && Handed(t.arrivals)
    ensures var c' := Step(g, c, t).0;
            var a := Answered(g, c, t);
            && (c'.state.up ==> a.Some? && (a.value.Silence? ==> c.state.up && c'.count == c.count + 1))
            && (c'.state.up && a.value.Advertised? ==> c'.count == 0)
            && (c.state.up ==> a.Some? && (!c'.state.up <==> a.value.Silence? && c.count + 1 == g.retries))
  {
    hide Resolve, Listen, IsGlobalUnicast, IsValidPrefix;
    ResolveSound(g, c, t.answers);
    if c.server != ZERO32 {
      ResolveKeeps(c, t.answers);
    }
  }

  lemma {:induction false} CountIsUnanswered(g: Config, cs: seq<Core>, ts: seq<Turn>, ns: seq<seq<State>>, i: nat)
    requires IsRun(g, cs, ts, ns) && i <= |ts|
    ensures cs[i].state.up ==> cs[i].count == Unanswered(g, cs, ts, i)
    decreases i
  {
    hide Step, Handed, Answered;
    if i > 0 {
      CountIsUnanswered(g, cs, ts, ns, i - 1);
      EveryRun(g, cs, ts, ns, i - 1);
      StepCounts(g, cs[i - 1], ts[i - 1]);
      assert Step(g, cs[i - 1], ts[i - 1]) == (cs[i], ns[i - 1]);
    }
  }

  /** While up, connectivity is given up exactly when the configured number of solicitations in a row, counted
      from the last accepted advertisement, went unanswered. */
  lemma OutageExact(g: Config, cs: seq<Core>, ts: seq<Turn>, ns: seq<seq<State>>, i: nat)
    requires IsRun(g, cs, ts, ns) && i < |ts| && cs[i].state.up
    ensures var a := Answered(g, cs[i], ts[i]);
            a.Some? && (!cs[i + 1].state.up <==> a.value.Silence? && Unanswered(g, cs, ts, i) + 1 == g.retries)
    ensures !cs[i + 1].state.up ==> ns[i] == [cs[i].state.(up := false)] && cs[i + 1].server == ZERO32
  {
    hide Handed, Answered, Unanswered, Hearing;
    CountIsUnanswered(g, cs, ts, ns, i);
    EveryRun(g, cs, ts, ns, i);
    StepCounts(g, cs[i], ts[i]);
    ResolveKeeps(cs[i], ts[i].answers);
    assert Step(g, cs[i], ts[i]) == (cs[i + 1], ns[i]);
  }

  /** A refresh is silent exactly if the mapping, the server, the prefix and the MTU are those in use; it then
      keeps the random flags. */
  lemma RefreshIsQuiet(g: Config, c: Core, h: Heard, flags: W16)
    requires h.Advertised? && c.state.up
    ensures var (c', ns) := Settle(g, c, h, flags);
            && (ns == [] <==> h.mtu == c.state.mtu && h.addr.(flags := ZERO16) == c.state.addr.(flags := ZERO16))
            && (ns == [] ==> c'.state == c.state)
            && (ns != [] ==> c'.state.addr.(flags := ZERO16) == h.addr.(flags := ZERO16) && c'.state.mtu == h.mtu)
  {
  }

  /** An accepted advertisement is published, up or not: the state is up with its address and MTU; the flags are drawn
      anew exactly if the address is new; the address it arrived at is recorded with every announcement, and there is
      one exactly if the client was down, or the address or the MTU changed. */
  lemma AdvertisedExact(g: Config, c: Core, h: Heard, flags: W16)
    requires h.Advertised? && Masked(c.state.addr.flags)
    ensures var (c', ns) := Settle(g, c, h, flags);
            var same := h.addr.(flags := ZERO16) == c.state.addr.(flags := ZERO16);
            && c'.state.up && c'.state.addr.(flags := ZERO16) == h.addr.(flags := ZERO16) && c'.state.mtu == h.mtu
            && c'.state.addr.flags == (if same then c.state.addr.flags else Randomised(flags))
            && ns == (if c.state.up && same && c.state.mtu == h.mtu then [] else [c'.state])
            && (ns != [] ==> c'.state.ipv4 == h.ipv4)
            && c'.server == c.server && c'.count == 0
  {
  }

  /** The flags are the bits of hexadecimal 3cff of what was drawn. */
  lemma RandomBits(f: W16)
    ensures var r := Randomised(f);
            r.b0 < 64 && r.b0 % 4 == 0 && (f.b0 - r.b0) % 64 < 4 && r.b1 == f.b1
  {
    var q := f.b0 / 4;
    assert q == q / 16 * 16 + q % 16;
    assert f.b0 - Randomised(f).b0 == q / 16 * 64 + f.b0 % 4;
  }

  /** In every run: a server once found is kept until connectivity is lost, and then it is looked up again. */
  lemma ServerKept(g: Config, cs: seq<Core>, ts: seq<Turn>, ns: seq<seq<State>>, i: nat)
    requires IsRun(g, cs, ts, ns) && i < |ts| && cs[i].server != ZERO32
    ensures cs[i + 1].server == (if cs[i].state.up && !cs[i + 1].state.up then ZERO32 else cs[i].server)
    ensures !cs[i].state.up && !cs[i + 1].state.up ==> ns[i] == [] && cs[i + 1].state == cs[i].state
  {
    hide Handed, Hearing;
    ResolveKeeps(cs[i], ts[i].answers);
    assert Step(g, cs[i], ts[i]) == (cs[i + 1], ns[i]);
  }

  // ---- The thread ----

  /** The locals of `maintenance_thread` and the state it publishes.  Each method is one part of its loop and
      returns the states that were passed to the callback. */
  class Thread {
    const config: Config
    var state: State
    var server: W32
    var count: nat
    var blackhole: bool

    constructor (config: Config)
      ensures this.config == config && Value() == START
    {
      this.config := config;
      state, server, count, blackhole := START.state, ZERO32, 0, false;
    }

    function Value(): Core
      reads this
    {
      Core(state, server, count, blackhole)
    }

    method ResolveServer(answers: seq<Option<W32>>) returns (told: seq<State>)
      requires Sound(config, Value())
      modifies this
      ensures (Value(), told) == Resolve(old(Value()), answers)
    {
      told := [];
      var i := 0;
      assert answers[0..] == answers;
      while server == ZERO32 && i < |answers|
        invariant 0 <= i <= |answers| && Value() == old(Value()) && told == []
        invariant Resolve(Value(), answers[i..]) == Resolve(old(Value()), answers)
      {
        var val := answers[i];
        if val.Some? && IsGlobalUnicast(val.value) {
          assert !state.up;
          server := val.value;
          state := state.(addr := state.addr.(server := server));
          told := [state];
          break;
        }
        assert answers[i..][1..] == answers[i + 1..];
        i := i + 1;
      }
    }

    /** Waits for an advertisement; the deadline passes after the last arrival. */
    method Await(nonce: Nonce8, arrivals: seq<Packet>, leftover: Addr) returns (h: Heard)
      requires Handed(arrivals)
      ensures h == Listen(config, server, nonce, arrivals, leftover, 1280)
    {
      hide Advert.MaintenanceRecv;
      var addr, mtu, i := leftover, 1280, 0;
      assert arrivals[0..] == arrivals;
      while i < |arrivals|
        invariant 0 <= i <= |arrivals|
        invariant Listen(config, server, nonce, arrivals[i..], addr, mtu)
               == Listen(config, server, nonce, arrivals, leftover, 1280)
      {
        var r := Advert.MaintenanceRecv(config.host, arrivals[i], server, nonce, addr, mtu);
        if r.ok {
          return Advertised(r.addr, r.mtu, arrivals[i].dest);
        }
        assert arrivals[i..][1..] == arrivals[i + 1..];
        addr, mtu, i := r.addr, r.mtu, i + 1;
      }
      return Silence;
    }

    method Update(h: Heard, flags: W16) returns (told: seq<State>)
      requires count < config.retries
      modifies this
      ensures (Value(), told) == Settle(config, old(Value()), h, flags)
    {
      told := [];
      if h.Silence? {
        count := count + 1;
        if count >= config.retries {
          count := 0;
          blackhole := true;
          if state.up {
            state := state.(up := false);
            told := [state];
            server := ZERO32;
          }
        }
      } else {
        count := 0;
        var newst := State(h.addr.(flags := state.addr.flags), h.ipv4, h.mtu, true);
        if state.addr != newst.addr {
          newst := newst.(addr := newst.addr.(flags := Randomised(flags)));
        }
        if !state.up || state.addr != newst.addr || state.mtu != newst.mtu {
          state := newst;
          told := [state];
        }
        blackhole := false;
      }
    }

    /** One turn of the endless loop. */
    method Loop(t: Turn) returns (told: seq<State>)
      requires Handed(t.arrivals) && Sound(config, Value()) && config.retries > 0
      modifies this
      ensures (Value(), told) == Step(config, old(Value()), t) && Sound(config, Value())
    {
      hide Sound, Resolve, Settle, Listen, Handed;
      StepSound(config, Value(), t);
      ResolveSound(config, Value(), t.answers);
      told := ResolveServer(t.answers);
      if server != ZERO32 {
        var h := Await(config.nonce(t.deadline, server), t.arrivals, t.leftover);
        assert count < config.retries by { Bounded(config, Value()); }
        var more := Update(h, t.flags);
        told := told + more;
      }
    }
  }

  lemma Bounded(g: Config, c: Core)
    requires Sound(g, c)
    ensures c.count < g.retries
  {
  }
}
