/** The waiting loop of the maintenance thread on top of the hand-off: what a turn hears is what receive threads
    posted, whatever the interleaving (maintain.c). */
module Intake {
  import opened Net
  import opened Packets
  import Advert
  import H = Handoff
  import M = Maintenance

  /** What is fixed while a turn waits: the server, the nonce, and which packet each call posts. */
  datatype Setting = Setting(g: M.Config, server: W32, nonce: Nonce8, packet: nat -> Packet)

  /** The hand-off; how many packets were consumed before the wait began; the candidate; what was heard. */
  datatype Wait = Wait(h: H.State, from: nat, addr: Addr, mtu: nat, heard: Option<M.Heard>)

  /** Calls hand over only what `teredo_maintenance_process` lets through. */
  ghost predicate Proper(s: Setting) {
    forall c :: WellFormed(s.packet(c).ip6) && Advert.IsMaintenance(s.packet(c))
  }

  function Begin(h: H.State, leftover: Addr): Wait {
    Wait(h, |h.consumed|, leftover, 1280, None)
  }

  /** A move of any thread.  The packet that is consumed is checked until one is accepted; later ones are ignored. */
  function Next(s: Setting, w: Wait, m: H.Move): Wait
    requires H.Enabled(w.h, m)
    requires m.Consume? ==> var p := s.packet(w.h.incoming.value); WellFormed(p.ip6) && p.auth.Some?
  {
    var w' := w.(h := H.Step(w.h, m));
    if m.Consume? && w.heard.None? then
      var p := s.packet(w.h.incoming.value);
      var r := Advert.MaintenanceRecv(s.g.host, p, s.server, s.nonce, w.addr, w.mtu);
      w'.(addr := r.addr, mtu := r.mtu, heard := if r.ok then Some(M.Advertised(r.addr, r.mtu, p.dest)) else None)
    else w'
  }

  /** The packets consumed since the wait began. */
  function Taken(s: Setting, w: Wait): seq<Packet>
    requires w.from <= |w.h.consumed|
  {
    seq(|w.h.consumed| - w.from, i requires 0 <= i < |w.h.consumed| - w.from => s.packet(w.h.consumed[w.from + i]))
  }

  // ---- Listening piece by piece ----

  /** After `arrivals`, all rejected, the candidate is `addr` and `mtu`. */
  predicate Reaches(s: Setting, arrivals: seq<Packet>, addr0: Addr, mtu0: nat, addr: Addr, mtu: nat)
    requires M.Handed(arrivals)
    decreases |arrivals|
  {
    if arrivals == [] then (addr, mtu) == (addr0, mtu0)
    else
      var r := Advert.MaintenanceRecv(s.g.host, arrivals[0], s.server, s.nonce, addr0, mtu0);
      !r.ok && Reaches(s, arrivals[1..], r.addr, r.mtu, addr, mtu)
  }

  lemma {:induction false} ReachesOn(s: Setting, arrivals: seq<Packet>, p: Packet, addr0: Addr, mtu0: nat, addr: Addr,
                                     mtu: nat)
    requires M.Handed(arrivals) && M.Handed([p]) && Reaches(s, arrivals, addr0, mtu0, addr, mtu)
    ensures M.Handed(arrivals + [p])
    ensures M.Listen(s.g, s.server, s.nonce, arrivals, addr0, mtu0) == M.Silence
    ensures var r := Advert.MaintenanceRecv(s.g.host, [p][0], s.server, s.nonce, addr, mtu);
            if r.ok
            then M.Listen(s.g, s.server, s.nonce, arrivals + [p], addr0, mtu0) == M.Advertised(r.addr, r.mtu, p.dest)
            else Reaches(s, arrivals + [p], addr0, mtu0, r.addr, r.mtu)
    decreases |arrivals|
  {
    hide Advert.MaintenanceRecv;
    var all := arrivals + [p];
    if arrivals == [] {
      assert all[0] == p && all[1..] == [];
    } else {
      assert all[0] == arrivals[0] && all[1..] == arrivals[1..] + [p];
      var r := Advert.MaintenanceRecv(s.g.host, arrivals[0], s.server, s.nonce, addr0, mtu0);
      ReachesOn(s, arrivals[1..], p, r.addr, r.mtu, addr, mtu);
    }
  }

  /** Once something was heard, further packets do not change it. */
  lemma {:induction false} HeardStays(s: Setting, arrivals: seq<Packet>, p: Packet, addr: Addr, mtu: nat)
    requires M.Handed(arrivals) && M.Handed([p]) && M.Listen(s.g, s.server, s.nonce, arrivals, addr, mtu).Advertised?
    ensures M.Handed(arrivals + [p])
    ensures M.Listen(s.g, s.server, s.nonce, arrivals + [p], addr, mtu)
         == M.Listen(s.g, s.server, s.nonce, arrivals, addr, mtu)
    decreases |arrivals|
  {
    hide Advert.MaintenanceRecv;
    var all := arrivals + [p];
    assert all[0] == arrivals[0] && all[1..] == arrivals[1..] + [p];
    var r := Advert.MaintenanceRecv(s.g.host, arrivals[0], s.server, s.nonce, addr, mtu);
    if !r.ok {
      HeardStays(s, arrivals[1..], p, r.addr, r.mtu);
    }
  }

  // ---- Runs ----

  /** What was heard so far is what listening to the packets taken so far yields. */
  ghost predicate Faithful(s: Setting, w: Wait, leftover: Addr) {
    && H.Inv(w.h) && w.from <= |w.h.consumed|
    && var taken := Taken(s, w);
    && M.Handed(taken)
    && match w.heard
       case None => Reaches(s, taken, leftover, 1280, w.addr, w.mtu)
       case Some(h) => h.Advertised? && M.Listen(s.g, s.server, s.nonce, taken, leftover, 1280) == h
  }

  lemma TakenMore(s: Setting, w: Wait, m: H.Move)
    requires H.Enabled(w.h, m) && w.from <= |w.h.consumed|
    ensures var h := H.Step(w.h, m);
            && w.from <= |h.consumed|
            && Taken(s, w.(h := h))
               == if m.Consume? then Taken(s, w) + [s.packet(w.h.incoming.value)] else Taken(s, w)
  {
    var h := H.Step(w.h, m);
    assert h.consumed == if m.Consume? then w.h.consumed + [w.h.incoming.value] else w.h.consumed;
  }

  lemma NextFaithful(s: Setting, w: Wait, m: H.Move, leftover: Addr)
    requires Proper(s) && Faithful(s, w, leftover) && H.Enabled(w.h, m)
    ensures Faithful(s, Next(s, w, m), leftover)
  {
    hide H.Inv, H.Step, H.Enabled, Taken, Reaches, M.Listen, Advert.MaintenanceRecv;
    H.StepInv(w.h, m);
    TakenMore(s, w, m);
    if m.Consume? {
      ConsumesSomething(w.h, m);
      assert Advert.IsMaintenance(s.packet(w.h.incoming.value));
    }
    SameTaken(s, w.(h := H.Step(w.h, m)), Next(s, w, m));
    if m.Consume? {
      var p := s.packet(w.h.incoming.value);
      assert M.Handed([p]);
      if w.heard.None? {
        ReachesOn(s, Taken(s, w), p, leftover, 1280, w.addr, w.mtu);
      } else {
        HeardStays(s, Taken(s, w), p, leftover, 1280);
      }
    }
  }

  lemma ConsumesSomething(h: H.State, m: H.Move)
    requires H.Enabled(h, m) && m.Consume?
    ensures h.incoming.Some?
  {
  }

  lemma SameTaken(s: Setting, w: Wait, w': Wait)
    requires w'.h == w.h && w'.from == w.from && w.from <= |w.h.consumed|
    ensures Taken(s, w') == Taken(s, w)
  {
  }

  ghost predicate IsRun(s: Setting, ws: seq<Wait>, ms: seq<H.Move>, leftover: Addr) {
    && |ws| == |ms| + 1 && Proper(s) && H.Inv(ws[0].h) && ws[0] == Begin(ws[0].h, leftover)
    && forall i :: 0 <= i < |ms| ==> H.Enabled(ws[i].h, ms[i]) && ws[i + 1] == Next(s, ws[i], ms[i])
  }

  /** Under every interleaving of receive threads, timeouts and spurious wake-ups: what the wait has heard at any
      point is what listening to the packets consumed since it began yields; and these are the packets of
      consecutive postings, each consumed once. */
  lemma {:induction false} HearsWhatIsPosted(s: Setting, ws: seq<Wait>, ms: seq<H.Move>, leftover: Addr, n: nat)
    requires IsRun(s, ws, ms, leftover) && n <= |ms|
    ensures var w := ws[n];
            && w.from == |ws[0].h.consumed| <= |w.h.consumed| <= |w.h.posted|
            && Faithful(s, w, leftover) && M.Handed(Taken(s, w))
            && M.Listen(s.g, s.server, s.nonce, Taken(s, w), leftover, 1280)
               == (if w.heard.None? then M.Silence else w.heard.value)
            && w.h.consumed[w.from..] == w.h.posted[w.from..|w.h.consumed|] && H.NoDup(w.h.posted)
    decreases n
  {
    hide H.Step, H.Enabled, Taken, Reaches, M.Listen, M.Handed, H.Exclusive, H.Pending;
    if n == 0 {
      StartsFaithful(s, ws[0], leftover);
    } else {
      HearsWhatIsPosted(s, ws, ms, leftover, n - 1);
      NextFaithful(s, ws[n - 1], ms[n - 1], leftover);
    }
    if ws[n].heard.None? {
      ReachedIsSilent(s, Taken(s, ws[n]), leftover, 1280, ws[n].addr, ws[n].mtu);
    }
  }

  lemma StartsFaithful(s: Setting, w: Wait, leftover: Addr)
    requires H.Inv(w.h) && w == Begin(w.h, leftover)
    ensures Faithful(s, w, leftover)
  {
    hide H.Inv;
    assert Taken(s, w) == [];
  }

  lemma {:induction false} ReachedIsSilent(s: Setting, arrivals: seq<Packet>, addr0: Addr, mtu0: nat, addr: Addr, mtu: nat)
    requires M.Handed(arrivals) && Reaches(s, arrivals, addr0, mtu0, addr, mtu)
    ensures M.Listen(s.g, s.server, s.nonce, arrivals, addr0, mtu0) == M.Silence
    decreases |arrivals|
  {
    hide Advert.MaintenanceRecv;
    if arrivals != [] {
      var r := Advert.MaintenanceRecv(s.g.host, arrivals[0], s.server, s.nonce, addr0, mtu0);
      ReachedIsSilent(s, arrivals[1..], r.addr, r.mtu, addr, mtu);
    }
  }
}
