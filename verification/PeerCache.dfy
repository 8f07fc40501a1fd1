/** The peer list as a value: two generations of keys and the entries they index (peerlist.c).
    The heap structure in PeerList refines this one. */
module PeerCache {
  import opened Net

  /** `recent` and `aged` list keys from head to tail; `left` is how many entries may still be created. */
  datatype Cache<+P> = Cache(recent: seq<Addr>, aged: seq<Addr>, peers: map<Addr, P>, left: nat)

  function Without(s: seq<Addr>, k: Addr): (r: seq<Addr>)
    ensures k !in r && |r| <= |s|
    ensures forall x :: x in r <==> x in s && x != k
  {
    if s == [] then [] else if s[0] == k then Without(s[1..], k) else [s[0]] + Without(s[1..], k)
  }

  ghost predicate NoDup(s: seq<Addr>) {
    forall i, j :: 0 <= i < j < |s| ==> s[i] != s[j]
  }

  /** The index maps exactly the listed keys, nothing is listed twice, and the count of free places is exact. */
  ghost predicate Valid<P>(c: Cache<P>, capacity: nat) {
    && NoDup(c.recent) && NoDup(c.aged)
    && (forall k :: k in c.recent ==> k !in c.aged)
    && (forall k :: k in c.peers <==> k in c.recent || k in c.aged)
    && c.left + |c.recent| + |c.aged| == capacity
  }

  // ---- Operations ----

  function Empty<P>(max: nat): Cache<P> {
    Cache([], [], map[], max)
  }

  /** Moves an entry to the head of the recent list. */
  function Touch<P>(c: Cache<P>, k: Addr): Cache<P> {
    c.(recent := [k] + Without(c.recent, k), aged := Without(c.aged, k))
  }

  function Insert<P>(c: Cache<P>, k: Addr, p: P): Cache<P>
    requires c.left > 0
  {
    Cache([k] + c.recent, c.aged, c.peers[k := p], c.left - 1)
  }

  datatype Outcome = Missing | Hit | Created

  /** `teredo_list_lookup`: `memory` says whether allocation succeeds should an entry be needed. */
  function Lookup<P>(c: Cache<P>, k: Addr, create: bool, memory: bool, blank: P): (Cache<P>, Outcome) {
    if k in c.peers then (Touch(c, k), Hit)
    else if create && memory && c.left > 0 then (Insert(c, k, blank), Created)
    else (c, Missing)
  }

  function Update<P>(c: Cache<P>, k: Addr, p: P): Cache<P> {
    c.(peers := c.peers[k := p])
  }

  /** One pass of the garbage collector: the old generation goes, the recent one becomes old. */
  function Collect<P>(c: Cache<P>): Cache<P> {
    Cache([], c.recent, map k | k in c.peers && k !in c.aged :: c.peers[k], c.left + |c.aged|)
  }

  lemma TouchPeers<P>(c: Cache<P>, k: Addr)
    ensures Touch(c, k).peers == c.peers && Touch(c, k).left == c.left
  {
  }

  // ---- Each operation keeps the structure ----

  lemma {:induction false} WithoutNoDup(s: seq<Addr>, k: Addr)
    requires NoDup(s)
    ensures NoDup(Without(s, k))
    ensures |Without(s, k)| == if k in s then |s| - 1 else |s|
  {
    if s != [] {
      assert NoDup(s[1..]);
      WithoutNoDup(s[1..], k);
      if s[0] != k {
        assert s[0] !in s[1..];
      }
    }
  }

  lemma TouchValid<P>(c: Cache<P>, k: Addr, capacity: nat)
    requires Valid(c, capacity) && k in c.peers
    ensures Valid(Touch(c, k), capacity)
  {
    WithoutNoDup(c.recent, k);
    WithoutNoDup(c.aged, k);
    var r := [k] + Without(c.recent, k);
    assert forall x :: x in r <==> x == k || x in Without(c.recent, k);
  }

  lemma InsertValid<P>(c: Cache<P>, k: Addr, p: P, capacity: nat)
    requires Valid(c, capacity) && k !in c.peers && c.left > 0
    ensures Valid(Insert(c, k, p), capacity)
  {
    var r := [k] + c.recent;
    assert forall x :: x in r <==> x == k || x in c.recent;
  }

  lemma LookupValid<P>(c: Cache<P>, k: Addr, create: bool, memory: bool, blank: P, capacity: nat)
    requires Valid(c, capacity)
    ensures Valid(Lookup(c, k, create, memory, blank).0, capacity)
  {
    if k in c.peers {
      TouchValid(c, k, capacity);
    } else if create && memory && c.left > 0 {
      InsertValid(c, k, blank, capacity);
    }
  }

  // ---- Runs ----

  datatype Event<+P> =
    | Find(key: Addr, create: bool, memory: bool, blank: P)
    | Store(key: Addr, peer: P)                          // the holder of the lock changes an entry
    | Gc
    | Reset(max: nat)

  /** The cache with what an observer remembers: capacity, time of last use of each key, time of the last
      collection. */
  datatype History<+P> = History(cache: Cache<P>, capacity: nat, used: map<Addr, nat>, collected: nat)

  function Start<P>(max: nat, now: nat): History<P> {
    History(Empty(max), max, map[], now)
  }

  function Step<P>(h: History<P>, e: Event<P>, now: nat): History<P> {
    match e
    case Find(k, create, memory, blank) =>
      var (c, outcome) := Lookup(h.cache, k, create, memory, blank);
      if outcome == Missing then h.(cache := c) else h.(cache := c, used := h.used[k := now])
    case Store(k, p) => if k in h.cache.peers then h.(cache := Update(h.cache, k, p)) else h
    case Gc => h.(cache := Collect(h.cache), collected := now)
    case Reset(max) => h.(cache := Empty(max), capacity := max)
  }

  /** A schedule: times do not decrease, and the collector sleeps for the expiration delay between passes. */
  predicate Schedule<P>(events: seq<(Event<P>, nat)>, clock: nat, collected: nat, expiration: nat) {
    events == [] ||
    (&& clock <= events[0].1
     && (events[0].0.Gc? ==> collected + expiration <= events[0].1)
     && Schedule(events[1..], events[0].1, if events[0].0.Gc? then events[0].1 else collected, expiration))
  }

  function Run<P>(h: History<P>, events: seq<(Event<P>, nat)>): History<P>
    decreases |events|
  {
    if events == [] then h else Run(Step(h, events[0].0, events[0].1), events[1..])
  }

  /** The structure is sound, every entry has been looked up, and an old entry not since the last collection. */
  ghost predicate Sound<P>(h: History<P>, clock: nat) {
    && Valid(h.cache, h.capacity)
    && h.collected <= clock
    && (forall k :: k in h.cache.peers ==> k in h.used && h.used[k] <= clock)
    && (forall k :: k in h.cache.aged ==> k in h.used && h.used[k] <= h.collected)
  }

  lemma FindSound<P>(h: History<P>, k: Addr, create: bool, memory: bool, blank: P, clock: nat, now: nat)
    requires Sound(h, clock) && clock <= now
    ensures Sound(Step(h, Find(k, create, memory, blank), now), now)
  {
    hide NoDup;
    LookupValid(h.cache, k, create, memory, blank, h.capacity);
  }

  lemma StepSound<P>(h: History<P>, e: Event<P>, clock: nat, now: nat)
    requires Sound(h, clock) && clock <= now
    ensures Sound(Step(h, e, now), now)
  {
    match e
    case Find(k, create, memory, blank) =>
      FindSound(h, k, create, memory, blank, clock, now);
    case Store(_, _) =>
    case Gc =>
    case Reset(_) =>
  }

  /** Index, lists and count agree after every run of lookups, creations, failed creations, collections
      and resets. */
  lemma {:induction false} RunSound<P>(h: History<P>, events: seq<(Event<P>, nat)>, clock: nat, expiration: nat)
      returns (now: nat)
    requires Sound(h, clock) && Schedule(events, clock, h.collected, expiration)
    ensures Sound(Run(h, events), now)
    decreases |events|
  {
    if events == [] {
      now := clock;
    } else {
      StepSound(h, events[0].0, clock, events[0].1);
      now := RunSound(Step(h, events[0].0, events[0].1), events[1..], events[0].1, expiration);
    }
  }

  // ---- Ageing ----

  /** Whatever the collector removes was last looked up at least one expiration delay earlier. */
  lemma RemovedOnlyWhenExpired<P>(h: History<P>, clock: nat, now: nat, expiration: nat, k: Addr)
    requires Sound(h, clock) && h.collected + expiration <= now
    requires k in h.cache.peers && k !in Step(h, Gc, now).cache.peers
    ensures k in h.used && h.used[k] + expiration <= now
  {
  }

  /** In any run: an entry a collection removes went unused for the whole expiration delay before it. */
  lemma CollectorSparesUsed<P>(max: nat, t0: nat, events: seq<(Event<P>, nat)>, expiration: nat, now: nat, k: Addr)
    requires Schedule(events, t0, t0, expiration)
    requires var h := Run(Start(max, t0), events);
             && h.collected + expiration <= now
             && k in h.cache.peers && k !in Step(h, Gc, now).cache.peers
    ensures var h := Run(Start(max, t0), events);
            k in h.used && h.used[k] + expiration <= now
  {
    var clock := RunSound(Start(max, t0), events, t0, expiration);
    RemovedOnlyWhenExpired(Run(Start(max, t0), events), clock, now, expiration, k);
  }

  predicate Uses<P>(e: Event<P>, k: Addr) {
    match e
    case Find(key, _, _, _) => key == k
    case _ => false
  }

  /** A key that nobody looks up only moves towards the exit. */
  lemma UnusedStep<P>(h: History<P>, e: Event<P>, now: nat, k: Addr)
    requires !Uses(e, k)
    ensures k !in h.cache.peers ==> k !in Step(h, e, now).cache.peers
    ensures k !in h.cache.recent ==> k !in Step(h, e, now).cache.recent
  {
  }

  lemma {:induction false} UnusedRun<P>(h: History<P>, events: seq<(Event<P>, nat)>, k: Addr)
    requires forall i :: 0 <= i < |events| ==> !Uses(events[i].0, k)
    ensures k !in h.cache.peers ==> k !in Run(h, events).cache.peers
    ensures k !in h.cache.recent ==> k !in Run(h, events).cache.recent
    decreases |events|
  {
    if events != [] {
      UnusedStep(h, events[0].0, events[0].1, k);
      UnusedRun(Step(h, events[0].0, events[0].1), events[1..], k);
    }
  }

  /** An entry that nobody looks up across two collections is gone, whatever else happens in between. */
  lemma GoneAfterTwoCollections<P>(h: History<P>, clock: nat, t1: nat, between: seq<(Event<P>, nat)>, t2: nat,
                                   k: Addr, expiration: nat)
    requires Sound(h, clock) && clock <= t1
    requires Schedule(between, t1, t1, expiration)
    requires forall i :: 0 <= i < |between| ==> !Uses(between[i].0, k)
    ensures k !in Step(Run(Step(h, Gc, t1), between), Gc, t2).cache.peers
  {
    var h1 := Step(h, Gc, t1);
    StepSound(h, Gc, clock, t1);
    UnusedRun(h1, between, k);
    var now := RunSound(h1, between, t1, expiration);
  }
}
