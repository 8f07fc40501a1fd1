/** How receive threads hand router advertisements to the maintenance thread (maintain.c): two mutexes, two
    condition variables and one pointer, interleaved step by step.  Waits may end spuriously or by timeout. */
module Handoff {
  import opened Net

  /** Where a receive thread is in `teredo_maintenance_process`, and on behalf of which call. */
  datatype Pc =
    | Out
    | AtOuter(call: nat)                                 // about to lock the outer mutex
    | AtInner(call: nat)                                 // about to lock the inner mutex
    | Posting(call: nat)                                 // about to set the pointer
    | Signalling(call: nat)                              // about to signal `received`
    | Asleep(call: nat)                                  // waiting for `processed`
    | Woken(call: nat)                                   // about to take the inner mutex back
    | Testing(call: nat)                                 // about to test the pointer
    | Leaving(call: nat)                                 // about to unlock the outer mutex

  /** Where the maintenance thread is in `wait_reply` and around it. */
  datatype Service =
    | Busy                                               // anything else it does, the inner mutex held
    | Checking                                           // about to test the pointer
    | Resting                                            // waiting for `received`
    | Rising(expired: bool)                              // about to take the inner mutex back
    | Consuming                                          // about to use and clear the pointer
    | Notifying                                          // about to signal `processed`

  datatype Owner = Free | Maintainer | Receiver(id: nat)

  /** `incoming` is the call whose packet is pending.  The last four fields are history: the next call number,
      calls whose packet was posted, calls whose packet was consumed, calls that returned. */
  datatype State = State(
    pcs: map<nat, Pc>, service: Service, outer: Option<nat>, inner: Owner, incoming: Option<nat>,
    next: nat, posted: seq<nat>, consumed: seq<nat>, returned: set<nat>)

  const START := State(map[], Busy, None, Maintainer, None, 0, [], [], {})

  function At(s: State, r: nat): Pc {
    if r in s.pcs then s.pcs[r] else Out
  }

  function Go(s: State, r: nat, pc: Pc): State {
    s.(pcs := s.pcs[r := pc])
  }

  datatype Move =
    | Call(r: nat) | LockOuter(r: nat) | LockInner(r: nat) | Post(r: nat)
    | SignalReceived(r: nat) | Wake(r: nat) | Retake(r: nat) | Test(r: nat) | Return(r: nat)
    | Settle | Check | Stir(expired: bool) | Rise | Consume | SignalProcessed(waiter: Option<nat>)

  /** The moves that only chance provides: spurious wake-ups and timeouts, and new calls. */
  predicate IsChance(m: Move) {
    m.Call? || m.Wake? || m.Stir?
  }

  predicate Enabled(s: State, m: Move) {
    match m
    case Call(r) => At(s, r).Out?
    case LockOuter(r) => At(s, r).AtOuter? && s.outer.None?
    case LockInner(r) => At(s, r).AtInner? && s.inner.Free?
    case Post(r) => At(s, r).Posting?
    case SignalReceived(r) => At(s, r).Signalling?
    case Wake(r) => At(s, r).Asleep?
    case Retake(r) => At(s, r).Woken? && s.inner.Free?
    case Test(r) => At(s, r).Testing?
    case Return(r) => At(s, r).Leaving?
    case Settle => s.service.Busy?
    case Check => s.service.Checking?
    case Stir(_) => s.service.Resting?
    case Rise => s.service.Rising? && s.inner.Free?
    case Consume => s.service.Consuming? && s.incoming.Some?
    case SignalProcessed(waiter) =>
      && s.service.Notifying?
      && match waiter
         case Some(r) => At(s, r).Asleep?
         case None => forall r :: r in s.pcs ==> !s.pcs[r].Asleep?
  }

  function Step(s: State, m: Move): State
    requires Enabled(s, m)
  {
    match m
    case Call(r) => Go(s, r, AtOuter(s.next)).(next := s.next + 1)
    case LockOuter(r) => Go(s, r, AtInner(At(s, r).call)).(outer := Some(r))
    case LockInner(r) => Go(s, r, Posting(At(s, r).call)).(inner := Receiver(r))
    case Post(r) =>
      Go(s, r, Signalling(At(s, r).call)).(incoming := Some(At(s, r).call), posted := s.posted + [At(s, r).call])
    case SignalReceived(r) =>
      // then waits for `processed`, which gives the inner mutex back
      Go(s, r, Asleep(At(s, r).call)).(service := if s.service.Resting? then Rising(false) else s.service, inner := Free)
    case Wake(r) => Go(s, r, Woken(At(s, r).call))
    case Retake(r) => Go(s, r, Testing(At(s, r).call)).(inner := Receiver(r))
    case Test(r) =>
      if s.incoming.Some? then Go(s, r, Asleep(At(s, r).call)).(inner := Free)
      else Go(s, r, Leaving(At(s, r).call)).(inner := Free)
    case Return(r) => Go(s, r, Out).(outer := None, returned := s.returned + {At(s, r).call})
    case Settle => s.(service := Checking)
    case Check => if s.incoming.Some? then s.(service := Consuming) else s.(service := Resting, inner := Free)
    case Stir(expired) => s.(service := Rising(expired))
    case Rise => s.(service := if s.service.expired then Busy else Checking, inner := Maintainer)
    case Consume => s.(service := Notifying, incoming := None, consumed := s.consumed + [s.incoming.value])
    case SignalProcessed(waiter) =>
      var s' := if waiter.Some? then Go(s, waiter.value, Woken(At(s, waiter.value).call)) else s;
      s'.(service := Busy)
  }

  // ---- Invariant ----

  predicate HoldsOuter(pc: Pc) {
    !pc.Out? && !pc.AtOuter?
  }

  predicate HoldsInner(pc: Pc) {
    pc.Posting? || pc.Signalling? || pc.Testing?
  }

  /** Inside the call, the packet posted and the return not yet decided. */
  predicate Delivering(pc: Pc) {
    pc.Signalling? || pc.Asleep? || pc.Woken? || pc.Testing?
  }

  predicate Unposted(pc: Pc) {
    pc.AtOuter? || pc.AtInner? || pc.Posting?
  }

  /** Each mutex is held by exactly the thread that is past its lock and before its unlock. */
  ghost predicate Exclusive(s: State) {
    && (forall r: nat :: HoldsOuter(At(s, r)) <==> s.outer == Some(r))
    && (forall r: nat :: HoldsInner(At(s, r)) <==> s.inner == Receiver(r))
    && (s.inner.Maintainer? <==> !s.service.Resting? && !s.service.Rising?)
  }

  /** The pending packet belongs to the holder of the outer mutex, who is still inside its call; and whoever
      sleeps has been or is about to be signalled when there is something for it to do. */
  ghost predicate Pending(s: State) {
    && (forall c :: s.incoming == Some(c) ==>
          s.outer.Some? && Delivering(At(s, s.outer.value)) && At(s, s.outer.value).call == c)
    && (s.incoming.None? && s.outer.Some? ==>
          var pc := At(s, s.outer.value);
          !pc.Signalling? && (pc.Asleep? ==> s.service.Notifying?))
    && (s.service.Consuming? ==> s.incoming.Some?)
    && (s.service.Notifying? ==> s.incoming.None?)
    && (s.service.Resting? && s.incoming.Some? ==> At(s, s.outer.value).Signalling?)
  }

  ghost predicate Conserved(s: State) {
    s.posted == s.consumed + if s.incoming.Some? then [s.incoming.value] else []
  }

  ghost predicate NoDup(q: seq<nat>) {
    forall i, j :: 0 <= i < j < |q| ==> q[i] != q[j]
  }

  /** Call numbers tell calls apart; a call posts at most once, and returns only after its packet was consumed. */
  ghost predicate Accounted(s: State) {
    && NoDup(s.posted)
    && (forall c :: c in s.posted ==> c < s.next)
    && (forall r: nat :: !At(s, r).Out? ==> At(s, r).call < s.next)
    && (forall r: nat, q: nat :: r != q && !At(s, r).Out? && !At(s, q).Out? ==> At(s, r).call != At(s, q).call)
    && (forall r: nat :: Unposted(At(s, r)) ==> At(s, r).call !in s.posted)
    && (forall r: nat :: Delivering(At(s, r)) || At(s, r).Leaving? ==> At(s, r).call in s.posted)
    && (forall r: nat :: At(s, r).Leaving? ==> At(s, r).call in s.consumed)
    && (forall c :: c in s.returned ==> c in s.consumed)
  }

  ghost predicate Inv(s: State) {
    Exclusive(s) && Pending(s) && Conserved(s) && Accounted(s)
  }

  // ---- Every move keeps it ----

  lemma ExclusiveStep(s: State, m: Move)
    requires Inv(s) && Enabled(s, m)
    ensures Exclusive(Step(s, m))
  {
    hide Conserved, Accounted, NoDup;
  }

  lemma PendingStep(s: State, m: Move)
    requires Inv(s) && Enabled(s, m)
    ensures Pending(Step(s, m))
  {
    hide Conserved, Accounted, NoDup;
  }

  lemma ConservedStep(s: State, m: Move)
    requires Inv(s) && Enabled(s, m)
    ensures Conserved(Step(s, m))
  {
    hide Accounted, NoDup;
  }

  /** A receiver that moves on within its call. */
  lemma Advance(s: State, s': State, r: nat, pc: Pc)
    requires Accounted(s) && !At(s, r).Out? && !pc.Out? && pc.call == At(s, r).call
    requires s'.pcs == s.pcs[r := pc] && s'.next == s.next
    requires s'.posted == s.posted && s'.consumed == s.consumed && s'.returned == s.returned
    requires Unposted(pc) ==> Unposted(At(s, r))
    requires Delivering(pc) || pc.Leaving? ==> Delivering(At(s, r))
    requires pc.Leaving? ==> pc.call in s.consumed
    ensures Accounted(s')
  {
    hide NoDup;
    assert forall q: nat :: At(s', q) == if q == r then pc else At(s, q);
  }

  lemma PostAccounted(s: State, r: nat)
    requires Accounted(s) && At(s, r).Posting?
    ensures Accounted(Step(s, Post(r)))
  {
    var c, s' := At(s, r).call, Step(s, Post(r));
    assert forall x :: x in s'.posted <==> x in s.posted || x == c;
    assert forall q: nat :: At(s', q) == if q == r then Signalling(c) else At(s, q);
  }

  lemma AccountedStep(s: State, m: Move)
    requires Inv(s) && Enabled(s, m)
    ensures Accounted(Step(s, m))
  {
    hide Exclusive, Accounted;
    var s' := Step(s, m);
    match m
    case Call(r) => CallAccounted(s, r);
    case Post(r) => PostAccounted(s, r);
    case Return(r) => ReturnAccounted(s, r);
    case Test(r) =>
      assert s.incoming.None? ==> s.posted == s.consumed;
      PostedIfDelivering(s, r);
      Advance(s, s', r, At(s', r));
    case LockOuter(r) => Advance(s, s', r, At(s', r));
    case LockInner(r) => Advance(s, s', r, At(s', r));
    case SignalReceived(r) => Advance(s, s', r, At(s', r));
    case Wake(r) => Advance(s, s', r, At(s', r));
    case Retake(r) => Advance(s, s', r, At(s', r));
    case SignalProcessed(waiter) =>
      if waiter.Some? {
        Advance(s, s', waiter.value, At(s', waiter.value));
      } else {
        Unaffected(s, s');
      }
    case _ => Unaffected(s, s');
  }

  lemma PostedIfDelivering(s: State, r: nat)
    requires Accounted(s) && Delivering(At(s, r))
    ensures At(s, r).call in s.posted
  {
  }

  lemma CallAccounted(s: State, r: nat)
    requires Accounted(s) && At(s, r).Out?
    ensures Accounted(Step(s, Call(r)))
  {
    hide NoDup;
    assert forall q: nat :: At(Step(s, Call(r)), q) == if q == r then AtOuter(s.next) else At(s, q);
  }

  lemma ReturnAccounted(s: State, r: nat)
    requires Accounted(s) && At(s, r).Leaving?
    ensures Accounted(Step(s, Return(r)))
  {
    hide NoDup;
    assert forall q: nat :: At(Step(s, Return(r)), q) == if q == r then Out else At(s, q);
  }

  lemma Unaffected(s: State, s': State)
    requires Accounted(s) && s'.pcs == s.pcs && s'.next == s.next
    requires s'.posted == s.posted && s'.returned == s.returned
    requires forall c :: c in s.consumed ==> c in s'.consumed
    ensures Accounted(s')
  {
    hide NoDup;
    assert forall q: nat :: At(s', q) == At(s, q);
  }

  lemma StepInv(s: State, m: Move)
    requires Inv(s) && Enabled(s, m)
    ensures Inv(Step(s, m))
  {
    hide Exclusive, Pending, Conserved, Accounted, Step, Enabled;
    ExclusiveStep(s, m);
    PendingStep(s, m);
    ConservedStep(s, m);
    AccountedStep(s, m);
  }

  // ---- Runs ----

  ghost predicate IsRun(ss: seq<State>, ms: seq<Move>) {
    && |ss| == |ms| + 1 && ss[0] == START
    && forall i :: 0 <= i < |ms| ==> Enabled(ss[i], ms[i]) && ss[i + 1] == Step(ss[i], ms[i])
  }

  lemma {:induction false} EveryRun(ss: seq<State>, ms: seq<Move>, n: nat)
    requires IsRun(ss, ms) && n <= |ms|
    ensures Inv(ss[n])
  {
    hide Step, Enabled;
    if n > 0 {
      EveryRun(ss, ms, n - 1);
      StepInv(ss[n - 1], ms[n - 1]);
    }
  }

  /** Posting never overwrites a pending packet. */
  lemma NeverOverwritten(ss: seq<State>, ms: seq<Move>, n: nat)
    requires IsRun(ss, ms) && n < |ms| && ms[n].Post?
    ensures ss[n].incoming.None?
  {
    EveryRun(ss, ms, n);
  }

  /** A packet is pending only while the thread that owns it is inside the call, which no other thread can be;
      packets are consumed in the order they were posted, each of them once, and before their call returns. */
  lemma ConsumedExactlyOnce(ss: seq<State>, ms: seq<Move>, n: nat)
    requires IsRun(ss, ms) && n <= |ms|
    ensures var s := ss[n];
            && (forall c :: s.incoming == Some(c) ==>
                  exists r: nat :: s.outer == Some(r) && Delivering(At(s, r)) && At(s, r).call == c)
            && s.posted == s.consumed + (if s.incoming.Some? then [s.incoming.value] else [])
            && NoDup(s.posted)
            && (forall c :: c in s.returned ==> c in s.consumed)
  {
    hide NoDup;
    EveryRun(ss, ms, n);
    var s := ss[n];
    if s.incoming.Some? {
      assert s.outer == Some(s.outer.value);
    }
  }

  // ---- Progress ----

  /** The maintenance thread, unless it is resting, can move or waits for a receiver that can. */
  lemma ServiceMoves(s: State) returns (m: Move)
    requires Inv(s) && !s.service.Resting?
    ensures Enabled(s, m) && !IsChance(m)
  {
    match s.service
    case Busy => m := Settle;
    case Checking => m := Check;
    case Consuming => m := Consume;
    case Notifying =>
      if r :| r in s.pcs && s.pcs[r].Asleep? {
        m := SignalProcessed(Some(r));
      } else {
        m := SignalProcessed(None);
      }
    case Rising(_) =>
      if s.inner.Receiver? {
        m := HolderMoves(s, s.inner.id);
      } else {
        m := Rise;
      }
  }

  lemma HolderMoves(s: State, r: nat) returns (m: Move)
    requires Inv(s) && s.inner == Receiver(r)
    ensures Enabled(s, m) && !IsChance(m)
  {
    assert HoldsInner(At(s, r));
    m := if At(s, r).Posting? then Post(r) else if At(s, r).Signalling? then SignalReceived(r) else Test(r);
  }

  /** No wake-up is lost: as long as a thread is inside the call, some thread can move without the help of a
      timeout, a spurious wake-up or another call. */
  lemma NeverStuck(ss: seq<State>, ms: seq<Move>, n: nat, r: nat) returns (m: Move)
    requires IsRun(ss, ms) && n <= |ms| && !At(ss[n], r).Out?
    ensures Enabled(ss[n], m) && !IsChance(m)
  {
    hide Accounted, Conserved;
    EveryRun(ss, ms, n);
    var s := ss[n];
    if s.inner.Receiver? {
      m := HolderMoves(s, s.inner.id);
    } else if !s.service.Resting? {
      m := ServiceMoves(s);
    } else if s.outer.None? {
      m := LockOuter(r);
    } else {
      var q := s.outer.value;
      assert HoldsOuter(At(s, q)) && !HoldsInner(At(s, q));
      m := if At(s, q).AtInner? then LockInner(q) else if At(s, q).Woken? then Retake(q) else Return(q);
    }
  }
}
