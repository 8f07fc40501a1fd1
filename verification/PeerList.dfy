/** The peer list in memory (peerlist.c): entries on two doubly linked lists, each holding a pointer to the
    location that points to it, and an index from addresses to entries. */
module PeerList {
  import opened Net
  import opened Peers
  import opened PeerCache

  /** A location that holds a pointer to an entry. */
  datatype Link = RecentHead | AgedHead | NextOf(node: Node)

  class Node {
    var key: Addr
    var back: Link
    var next: Node?
    var peer: Peer

    /** `listitem_create`: the caller links the entry and sets its key. */
    constructor ()
      ensures peer == BLANK
    {
      peer := BLANK;
    }
  }

  // ---- Chains ----

  ghost function At(s: seq<Node>, i: int): Node? {
    if 0 <= i < |s| then s[i] else null
  }

  ghost function Before(s: seq<Node>, i: int, base: Link): Link {
    if 0 < i <= |s| then NextOf(s[i - 1]) else base
  }

  /** `s` is exactly what following `next` from `head` visits, and each entry knows where its pointer is. */
  ghost predicate Chain(head: Node?, s: seq<Node>, base: Link)
    reads s`next, s`back
  {
    && head == At(s, 0)
    && (forall i {:trigger s[i].next} :: 0 <= i < |s| ==> s[i].next == At(s, i + 1))
    && (forall i {:trigger s[i].back} :: 0 <= i < |s| ==> s[i].back == Before(s, i, base))
  }

  ghost predicate Distinct(s: seq<Node>) {
    forall i, j :: 0 <= i < j < |s| ==> s[i] != s[j]
  }

  ghost predicate Apart(s: seq<Node>, t: seq<Node>) {
    forall i, j :: 0 <= i < |s| && 0 <= j < |t| ==> s[i] != t[j]
  }

  ghost predicate Unfreed(s: seq<Node>, freed: set<Node>) {
    forall n :: n in s ==> n !in freed
  }

  ghost function Keys(s: seq<Node>): (ks: seq<Addr>)
    reads s`key
    ensures |ks| == |s| && forall i :: 0 <= i < |s| ==> ks[i] == s[i].key
  {
    if s == [] then [] else [s[0].key] + Keys(s[1..])
  }

  ghost function Drop(s: seq<Node>, i: nat): seq<Node>
    requires i < |s|
  {
    s[..i] + s[i + 1..]
  }

  lemma ChainAt(head: Node?, s: seq<Node>, base: Link)
    requires Chain(head, s, base)
    ensures head == At(s, 0)
    ensures forall i {:trigger s[i].next} :: 0 <= i < |s| ==> s[i].next == At(s, i + 1)
    ensures forall i {:trigger s[i].back} :: 0 <= i < |s| ==> s[i].back == Before(s, i, base)
  {
  }

  lemma Adjacent(s: seq<Node>, i: nat, base: Link)
    requires i < |s| && Distinct(s) && !base.NextOf?
    ensures forall j :: 0 <= j < |s| ==> (s[j] == At(s, i + 1) <==> j == i + 1)
    ensures forall j :: 0 <= j < |s| ==> (NextOf(s[j]) == Before(s, i, base) <==> j == i - 1)
    ensures At(s, i + 1) == null || At(s, i + 1) in s
    ensures Before(s, i, base).NextOf? ==> Before(s, i, base).node in s
    ensures Before(s, i, base).NextOf? <==> i > 0
    ensures i == 0 ==> Before(s, i, base) == base
  {
  }

  /** Neighbours in a list that lost one entry. */
  lemma DropAt(s: seq<Node>, i: nat, j: nat, base: Link)
    requires i < |s| && j < |s| - 1
    ensures var d, k := Drop(s, i), if j < i then j else j + 1;
            && |d| == |s| - 1 && d[j] == s[k]
            && At(d, j + 1) == (if k == i - 1 then At(s, i + 1) else At(s, k + 1))
            && Before(d, j, base) == (if k == i + 1 then Before(s, i, base) else Before(s, k, base))
  {
  }

  lemma DropDistinct(s: seq<Node>, i: nat)
    requires i < |s| && Distinct(s)
    ensures Distinct(Drop(s, i)) && s[i] !in Drop(s, i)
    ensures forall n :: n in s <==> n == s[i] || n in Drop(s, i)
  {
    var d := Drop(s, i);
    forall n | n in s && n != s[i]
      ensures n in d
    {
      var k :| 0 <= k < |s| && s[k] == n;
      assert d[if k < i then k else k - 1] == n;
    }
  }

  /** Repairing the two pointers around an entry leaves the chain without it. */
  lemma Splice(head: Node?, s: seq<Node>, i: nat, base: Link)
    requires i < |s| && head == if i == 0 then At(s, 1) else At(s, 0)
    requires forall j {:trigger s[j].next} :: 0 <= j < |s| && j != i ==>
               s[j].next == if j == i - 1 then At(s, i + 1) else At(s, j + 1)
    requires forall j {:trigger s[j].back} :: 0 <= j < |s| && j != i ==>
               s[j].back == if j == i + 1 then Before(s, i, base) else Before(s, j, base)
    ensures Chain(head, Drop(s, i), base)
  {
    hide Drop, At, Before;
    var d := Drop(s, i);
    assert |d| == |s| - 1 && At(d, 0) == head by { DropLength(s, i); }
    forall j | 0 <= j < |d|
      ensures d[j].next == At(d, j + 1) && d[j].back == Before(d, j, base)
    {
      DropAt(s, i, j, base);
    }
  }

  lemma DropLength(s: seq<Node>, i: nat)
    requires i < |s|
    ensures |Drop(s, i)| == |s| - 1 && At(Drop(s, i), 0) == if i == 0 then At(s, 1) else At(s, 0)
  {
  }

  lemma StaysUnfreed(s: seq<Node>, dead: seq<Node>, freed: set<Node>)
    requires Unfreed(s, freed) && Apart(s, dead)
    ensures Unfreed(s, freed + set n | n in dead)
    ensures Unfreed([], freed + set n | n in dead)
  {
  }

  // ---- Keys ----

  lemma {:induction false} WithoutAt(ks: seq<Addr>, i: nat)
    requires NoDup(ks) && i < |ks|
    ensures Without(ks, ks[i]) == ks[..i] + ks[i + 1..]
    decreases |ks|
  {
    if i == 0 {
      WithoutAbsent(ks[1..], ks[0]);
      assert ks[..0] + ks[1..] == ks[1..];
    } else {
      WithoutAt(ks[1..], i - 1);
      assert ks[1..][..i - 1] == ks[1..i] && ks[1..][i - 1 + 1..] == ks[i + 1..];
      assert ks[..i] == [ks[0]] + ks[1..i];
    }
  }

  lemma {:induction false} WithoutAbsent(ks: seq<Addr>, k: Addr)
    requires k !in ks
    ensures Without(ks, k) == ks
    decreases |ks|
  {
    if ks != [] {
      assert ks[0] in ks && k !in ks[1..];
      WithoutAbsent(ks[1..], k);
    }
  }

  lemma KeysOfDrop(s: seq<Node>, i: nat)
    requires i < |s|
    ensures Keys(Drop(s, i)) == Keys(s)[..i] + Keys(s)[i + 1..]
  {
    hide Keys, Drop;
    DropLength(s, i);
    var d, w := Drop(s, i), Keys(s)[..i] + Keys(s)[i + 1..];
    forall j | 0 <= j < |d|
      ensures Keys(d)[j] == w[j]
    {
      DropAt(s, i, j, RecentHead);
    }
  }

  lemma KeysDrop(s: seq<Node>, i: nat)
    requires i < |s| && NoDup(Keys(s))
    ensures Keys(Drop(s, i)) == Without(Keys(s), s[i].key)
  {
    hide Keys, Without, NoDup, Drop;
    KeysOfDrop(s, i);
    WithoutAt(Keys(s), i);
  }

  // ---- The index and what it stands for ----

  /** The index holds exactly the entries of both lists, under their keys. */
  ghost predicate Indexes(root: map<Addr, Node?>, y: seq<Node>, e: seq<Node>)
    reads y`key, e`key
  {
    && (forall k :: k in root ==> root[k] != null && (root[k] in y || root[k] in e) && root[k].key == k)
    && (forall n :: n in y ==> n.key in root && root[n.key] == n)
    && (forall n :: n in e ==> n.key in root && root[n.key] == n)
  }

  ghost function View(root: map<Addr, Node?>, y: seq<Node>, e: seq<Node>, left: nat): Cache<Peer>
    reads y`key, e`key, y`peer, e`peer
    requires Indexes(root, y, e)
  {
    Cache(Keys(y), Keys(e), map k | k in root :: root[k].peer, left)
  }

  /** Distinct entries have distinct keys. */
  lemma KeysDistinct(root: map<Addr, Node?>, y: seq<Node>, e: seq<Node>)
    requires Indexes(root, y, e) && Distinct(y) && Distinct(e) && Apart(y, e)
    ensures NoDup(Keys(y)) && NoDup(Keys(e))
    ensures forall k :: k in Keys(y) ==> k !in Keys(e)
    ensures forall k :: k in root <==> k in Keys(y) || k in Keys(e)
  {
    hide Keys;
    assert forall i :: 0 <= i < |y| ==> y[i] in y;
    assert forall i :: 0 <= i < |e| ==> e[i] in e;
    forall k | k in root
      ensures k in Keys(y) || k in Keys(e)
    {
      var n := root[k];
      if n in y {
        var i :| 0 <= i < |y| && y[i] == n;
        assert Keys(y)[i] == k;
      } else {
        var i :| 0 <= i < |e| && e[i] == n;
        assert Keys(e)[i] == k;
      }
    }
  }

  /** Moving entry `i` of the recent list to its front is a touch. */
  lemma TouchedYoung(root: map<Addr, Node?>, y: seq<Node>, e: seq<Node>, left: nat, i: nat)
    requires Indexes(root, y, e) && Distinct(y) && Distinct(e) && Apart(y, e) && i < |y|
    ensures var y' := [y[i]] + Drop(y, i);
            Indexes(root, y', e) && View(root, y', e, left) == Touch(View(root, y, e, left), y[i].key)
  {
    hide Keys, Without, NoDup;
    KeysDistinct(root, y, e);
    KeysDrop(y, i);
    DropDistinct(y, i);
    var y' := [y[i]] + Drop(y, i);
    assert y[i].key == Keys(y)[i];
    WithoutAbsent(Keys(e), y[i].key);
    assert forall n :: n in y' <==> n == y[i] || n in Drop(y, i);
    assert Keys(y') == [y[i].key] + Keys(Drop(y, i));
  }

  /** So is moving entry `i` of the old list there. */
  lemma TouchedElder(root: map<Addr, Node?>, y: seq<Node>, e: seq<Node>, left: nat, i: nat)
    requires Indexes(root, y, e) && Distinct(y) && Distinct(e) && Apart(y, e) && i < |e|
    ensures var y', e' := [e[i]] + y, Drop(e, i);
            Indexes(root, y', e') && View(root, y', e', left) == Touch(View(root, y, e, left), e[i].key)
  {
    hide Keys, Without, NoDup;
    KeysDistinct(root, y, e);
    KeysDrop(e, i);
    DropDistinct(e, i);
    var y' := [e[i]] + y;
    assert e[i].key == Keys(e)[i];
    WithoutAbsent(Keys(y), e[i].key);
    assert forall n :: n in y' <==> n == e[i] || n in y;
    assert Keys(y') == [e[i].key] + Keys(y);
  }

  /** Adding an entry under a new key at the front of the recent list is an insertion. */
  lemma Inserted(root: map<Addr, Node?>, y: seq<Node>, e: seq<Node>, left: nat, n: Node)
    requires Indexes(root, y, e) && n.key !in root && n !in y && n !in e && left > 0
    ensures var root', y' := root[n.key := n], [n] + y;
            Indexes(root', y', e) && View(root', y', e, left - 1) == Insert(View(root, y, e, left), n.key, n.peer)
  {
    hide Keys;
    var root', y' := root[n.key := n], [n] + y;
    assert forall m :: m in y' <==> m == n || m in y;
    assert Indexes(root', y', e);
    assert Keys(y') == [n.key] + Keys(y);
    assert View(root', y', e, left - 1).peers == View(root, y, e, left).peers[n.key := n.peer];
  }

  /** What is left of the index once the keys `ks` are deleted. */
  ghost predicate Deleted(root: map<Addr, Node?>, root': map<Addr, Node?>, ks: seq<Addr>) {
    && (forall k :: k in root' <==> k in root && k !in ks)
    && (forall k :: k in root' ==> root'[k] == root[k])
  }

  lemma NoneDeleted(root: map<Addr, Node?>, ks: seq<Addr>)
    ensures Deleted(root, root, ks[..0])
  {
  }

  lemma DeletedNext(root: map<Addr, Node?>, root': map<Addr, Node?>, ks: seq<Addr>, j: nat)
    requires j < |ks| && Deleted(root, root', ks[..j]) && NoDup(ks) && ks[j] in root
    ensures ks[j] in root' && Deleted(root, root' - {ks[j]}, ks[..j + 1])
  {
    assert ks[..j + 1] == ks[..j] + [ks[j]];
    assert ks[j] !in ks[..j];
  }

  lemma StaysIndexed(root: map<Addr, Node?>, root': map<Addr, Node?>, y: seq<Node>, e: seq<Node>)
    requires Indexes(root, y, e) && Deleted(root, root', Keys(e)) && forall k :: k in Keys(y) ==> k !in Keys(e)
    ensures Indexes(root', [], y)
  {
    hide Keys;
    forall n | n in y
      ensures n.key in root'
    {
      var i :| 0 <= i < |y| && y[i] == n;
      assert Keys(y)[i] == n.key;
    }
    forall n | n in e
      ensures n.key in Keys(e)
    {
      var i :| 0 <= i < |e| && e[i] == n;
      assert Keys(e)[i] == n.key;
    }
  }

  /** Dropping the old list from the index and putting the recent one in its place is a collection. */
  lemma Collected(root: map<Addr, Node?>, root': map<Addr, Node?>, y: seq<Node>, e: seq<Node>, left: nat)
    requires Indexes(root, y, e) && Distinct(y) && Distinct(e) && Apart(y, e)
    requires Deleted(root, root', Keys(e))
    ensures Indexes(root', [], y)
    ensures View(root', [], y, left + |e|) == Collect(View(root, y, e, left))
  {
    hide Keys, NoDup, Distinct, Apart;
    KeysDistinct(root, y, e);
    StaysIndexed(root, root', y, e);
    assert Keys([]) == [];
  }

  class PeerList {
    var recent: Node?
    var aged: Node?
    var left: nat
    var root: map<Addr, Node?>
    var locked: bool
    ghost var young: seq<Node>                           // entries on the recent list, from its head
    ghost var elder: seq<Node>                           // entries on the old list
    ghost var freed: set<Node>                           // entries whose memory was released

    /** Both chains are well linked and share no entry. */
    ghost predicate Linked()
      reads this`recent, this`aged, this`young, this`elder, young`next, young`back, elder`next, elder`back
    {
      && Chain(recent, young, RecentHead) && Chain(aged, elder, AgedHead)
      && Distinct(young) && Distinct(elder) && Apart(young, elder)
    }

    ghost predicate Valid()
      reads this, young, elder
    {
      Linked() && Indexes(root, young, elder) && Unfreed(young, freed) && Unfreed(elder, freed)
    }

    ghost function Model(): Cache<Peer>
      reads this, young, elder
      requires Valid()
    {
      View(root, young, elder, left)
    }

    /** The structure is one that the cache model allows. */
    lemma ModelValid()
      requires Valid()
      ensures PeerCache.Valid(Model(), left + |young| + |elder|)
    {
      hide Keys, Chain;
      Parts();
      KeysDistinct(root, young, elder);
    }

    /** `*l` */
    function Load(l: Link): Node?
      reads this`recent, this`aged, (if l.NextOf? then {l.node} else {})`next
    {
      match l
      case RecentHead => recent
      case AgedHead => aged
      case NextOf(m) => m.next
    }

    /** What `teredo_list_lookup` asserts of an entry before and after moving it. */
    lemma Threaded(n: Node)
      requires Linked() && (n in young || n in elder)
      ensures Load(n.back) == n && (n.next == null || n.next.back == NextOf(n))
    {
      hide Distinct, Apart;
      var i := Locate(n);
      var s := if n in young then young else elder;
      assert s[i].back == Before(s, i, if n in young then RecentHead else AgedHead);
      if i > 0 {
        assert s[i - 1].next == At(s, i);
      }
      if i + 1 < |s| {
        assert s[i + 1].back == Before(s, i + 1, if n in young then RecentHead else AgedHead);
      }
    }

    /** `*l = v` */
    method Store(l: Link, v: Node?)
      modifies this`recent, this`aged, (if l.NextOf? then {l.node} else {})`next
      ensures recent == if l.RecentHead? then v else old(recent)
      ensures aged == if l.AgedHead? then v else old(aged)
      ensures l.NextOf? ==> l.node.next == v
    {
      match l
      case RecentHead => recent := v;
      case AgedHead => aged := v;
      case NextOf(m) => m.next := v;
    }

    /** The two writes that take an entry out of its list. */
    method Detach(n: Node)
      requires n.next != n && n.back != NextOf(n)
      modifies this`recent, this`aged
      modifies (if n.next != null then {n.next} else {})`back, (if n.back.NextOf? then {n.back.node} else {})`next
      ensures recent == if n.back.RecentHead? then n.next else old(recent)
      ensures aged == if n.back.AgedHead? then n.next else old(aged)
      ensures n.next != null ==> n.next.back == n.back
      ensures n.back.NextOf? ==> n.back.node.next == n.next
    {
      if n.next != null {
        n.next.back := n.back;
      }
      Store(n.back, n.next);
    }

    ghost function Head(base: Link): Node?
      reads this
    {
      if base.RecentHead? then recent else aged
    }

    /** The chain that an entry leaves. */
    method Extract(n: Node, ghost s: seq<Node>, ghost i: nat, ghost base: Link)
      requires Chain(Head(base), s, base) && Distinct(s) && !base.NextOf?
      requires i < |s| && s[i] == n
      modifies this`recent, this`aged, s`next, s`back
      ensures Chain(Head(base), Drop(s, i), base)
      ensures base.RecentHead? ==> aged == old(aged)
      ensures base.AgedHead? ==> recent == old(recent)
    {
      hide Chain, At, Before, Drop;
      ChainAt(Head(base), s, base);
      Adjacent(s, i, base);
      Detach(n);
      forall j | 0 <= j < |s| && j != i
        ensures s[j].next == if j == i - 1 then At(s, i + 1) else At(s, j + 1)
        ensures s[j].back == if j == i + 1 then Before(s, i, base) else Before(s, j, base)
      {
        assert s[j] == n.next <==> j == i + 1;
        assert n.back == NextOf(s[j]) <==> j == i - 1;
      }
      Splice(Head(base), s, i, base);
    }

    /** Takes an entry out of whichever list it is on. */
    method Unlink(n: Node, ghost i: nat)
      requires Linked() && (n in young || n in elder)
      requires i < |if n in young then young else elder| && (if n in young then young else elder)[i] == n
      modifies this`recent, this`aged, this`young, this`elder, young`next, young`back, elder`next, elder`back
      ensures Linked()
      ensures n !in young && n !in elder
      ensures old(n in young) ==> young == Drop(old(young), i) && elder == old(elder)
      ensures !old(n in young) ==> young == old(young) && elder == Drop(old(elder), i)
      ensures forall j :: 0 <= j < |young| ==> young[j] in old(young)
    {
      hide Chain;
      ghost var s, base := if n in young then young else elder, if n in young then RecentHead else AgedHead;
      ghost var o, other := if n in young then elder else young, if n in young then AgedHead else RecentHead;
      assert Chain(Head(other), o, other) && Apart(o, s) && Apart(s, o);
      Extract(n, s, i, base);
      assert Chain(Head(other), o, other);
      DropDistinct(s, i);
      if n in young {
        young := Drop(young, i);
      } else {
        elder := Drop(elder, i);
      }
    }

    /** Puts an entry at the head of the recent list. */
    method PushFront(n: Node)
      requires Linked() && n !in young && n !in elder
      modifies this`recent, this`young, young`back, n`next, n`back
      ensures Linked() && young == [n] + old(young) && recent == n
    {
      n.next := recent;
      if n.next != null {
        n.next.back := NextOf(n);
      }
      recent := n;
      n.back := RecentHead;
      young := [n] + young;
    }

    // ---- Operations ----

    /** `teredo_list_create`, without its collector thread. */
    constructor (max: nat)
      ensures Valid() && !locked && Model() == Empty(max) && freed == {}
    {
      recent, aged, left, root, locked := null, null, max, map[], false;
      young, elder, freed := [], [], {};
    }

    /** Where an entry is. */
    lemma Locate(n: Node) returns (i: nat)
      requires n in young || n in elder
      ensures i < |if n in young then young else elder| && (if n in young then young else elder)[i] == n
    {
      if n in young {
        i :| 0 <= i < |young| && young[i] == n;
      } else {
        i :| 0 <= i < |elder| && elder[i] == n;
      }
    }

    /** The list surgery of a hit, for an entry that is not at the head already. */
    method MoveToFront(n: Node, ghost i: nat)
      requires Linked() && (n in young || n in elder)
      requires i < |if n in young then young else elder| && (if n in young then young else elder)[i] == n
      modifies this`recent, this`aged, this`young, this`elder, young`next, young`back, elder`next, elder`back
      ensures Linked() && recent == n
      ensures young == [n] + (if n in old(young) then Drop(old(young), i) else old(young))
      ensures elder == if n in old(young) then old(elder) else Drop(old(elder), i)
    {
      hide Linked, Drop;
      Unlink(n, i);
      PushFront(n);
    }

    lemma AtHead(n: Node, i: nat)
      requires Linked() && recent == n && (n in young || n in elder)
      requires i < |if n in young then young else elder| && (if n in young then young else elder)[i] == n
      ensures n in young && [n] + Drop(young, i) == young
    {
      hide Chain;
      ChainAt(recent, young, RecentHead);
      assert young[0] == n;
    }

    lemma StillUnfreed(n: Node, i: nat)
      requires Valid() && (n in young || n in elder)
      requires i < |if n in young then young else elder| && (if n in young then young else elder)[i] == n
      ensures Unfreed([n] + (if n in young then Drop(young, i) else young), freed)
      ensures Unfreed(if n in young then elder else Drop(elder, i), freed)
    {
      hide Chain, Drop, Indexes;
      DropDistinct(if n in young then young else elder, i);
    }

    /** Moves an entry to the head of the recent list. */
    method Promote(n: Node)
      requires Valid() && (n in young || n in elder)
      modifies this`recent, this`aged, this`young, this`elder, young`next, young`back, elder`next, elder`back
      ensures Valid() && Model() == Touch(old(Model()), n.key)
      ensures n in young && n == recent
      ensures forall i :: 0 <= i < |young| ==> young[i] in old(young) || young[i] in old(elder)
      ensures forall i :: 0 <= i < |elder| ==> elder[i] in old(elder)
    {
      hide Drop, Keys, Chain, Indexes, View, Unfreed;
      ghost var i := Locate(n);
      StillUnfreed(n, i);
      DropDistinct(if n in young then young else elder, i);
      if n in young {
        TouchedYoung(root, young, elder, left, i);
      } else {
        TouchedElder(root, young, elder, left, i);
      }
      if recent != n {
        ghost var y' := [n] + if n in young then Drop(young, i) else young;
        ghost var e' := if n in young then elder else Drop(elder, i);
        assert Indexes(root, y', e') && View(root, y', e', left) == Touch(Model(), n.key);
        assert forall m :: m in y' ==> m in young || m in elder;
        assert forall m :: m in e' ==> m in elder;
        MoveToFront(n, i);
        assert young == y' && elder == e';
      } else {
        AtHead(n, i);
      }
    }

    lemma Known(k: Addr)
      requires Valid()
      ensures Model().left == left && (k in Model().peers <==> k in root)
      ensures k in root ==> root[k] != null && (root[k] in young || root[k] in elder) && root[k].key == k
    {
      hide Linked;
    }

    /** Links a new entry and enters it in the index, where its place may have been prepared. */
    method Adopt(n: Node, k: Addr, ghost root0: map<Addr, Node?>)
      requires Linked() && Indexes(root0, young, elder) && Unfreed(young, freed) && Unfreed(elder, freed)
      requires k !in root0 && root == root0[k := null] && left > 0
      requires n !in young && n !in elder && n !in freed
      modifies this, young`back, n
      ensures Valid() && freed == old(freed) && locked == old(locked) && elder == old(elder)
      ensures young == [n] + old(young) && recent == n && n.key == k && n.peer == old(n.peer)
      ensures old(Indexes(root0, young, elder))
      ensures Model() == Insert(old(View(root0, young, elder, left)), k, n.peer)
    {
      hide Keys, Chain, Indexes, View, Linked;
      PushFront(n);
      left := left - 1;
      root := root[k := n];
      n.key := k;
      Inserted(root0, old(young), elder, old(left), n);
      assert root == root0[k := n];
    }

    /** Fills the place prepared in the index with a new entry, or clears it when there can be none. */
    method Enter(k: Addr, entryMemory: bool, ghost root0: map<Addr, Node?>) returns (n: Node?)
      requires Linked() && Indexes(root0, young, elder) && Unfreed(young, freed) && Unfreed(elder, freed)
      requires k !in root0 && root == root0[k := null] && locked
      modifies this, young`back
      ensures Valid() && freed == old(freed) && elder == old(elder) && (locked <==> n != null)
      ensures n == null <==> !(old(left) > 0 && entryMemory)
      ensures n == null ==> root == root0 && young == old(young) && left == old(left)
      ensures n != null ==> fresh(n) && young == [n] + old(young) && n.key == k && n == recent
      ensures n != null ==> Model() == Insert(old(View(root0, young, elder, left)), k, BLANK)
    {
      hide Keys, Chain, Indexes, View, Unfreed, Linked;
      n := null;
      if left > 0 && entryMemory {
        n := new Node();
      }
      if n == null {
        root := root - {k};
        assert root == root0;
        locked := false;
        return;
      }
      Adopt(n, k, root0);
    }

    /** `teredo_list_lookup`; the two flags say whether the index and the entry can be allocated.  The lock is
        held on return exactly if an entry is returned. */
    method Lookup(k: Addr, create: bool, indexMemory: bool, entryMemory: bool) returns (n: Node?, created: bool)
      requires Valid() && !locked
      modifies this, young`next, young`back, elder`next, elder`back
      ensures Valid() && freed == old(freed)
      ensures (Model(), if n == null then Missing else if created then Created else Hit)
           == PeerCache.Lookup(old(Model()), k, create, indexMemory && entryMemory, BLANK)
      ensures locked <==> n != null
      ensures n != null ==> n in young && n.key == k && n == recent
      ensures forall i :: 0 <= i < |young| ==> young[i] in old(young) || young[i] in old(elder) || fresh(young[i])
      ensures forall i :: 0 <= i < |elder| ==> elder[i] in old(elder)
    {
      hide Drop, Keys, Chain, Indexes, View, Unfreed, Linked, Touch, Insert;
      locked := true;
      created := false;
      ghost var root0 := root;
      Known(k);
      if create {
        if k !in root {
          if !indexMemory {
            locked := false;
            return null, false;
          }
          root := root[k := null];
        }
        n := root[k];
      } else {
        n := if k in root then root[k] else null;
      }
      if n != null {
        Threaded(n);
        Promote(n);
        Threaded(n);
        return n, false;
      }
      if !create {
        locked := false;
        return null, false;
      }
      n := Enter(k, entryMemory, root0);
      created := true;
    }

    lemma PeerAt(n: Node)
      requires Valid() && n in young
      ensures n.key in Model().peers && Model().peers[n.key] == n.peer
    {
      hide Linked, Keys;
    }

    /** `teredo_list_release` */
    method Release()
      requires Valid() && locked
      modifies this`locked
      ensures Valid() && !locked && Model() == old(Model())
    {
      locked := false;
    }

    /** The holder of the lock writes to the entry it looked up. */
    method Change(n: Node, p: Peer)
      requires Valid() && locked && n in young
      modifies n`peer
      ensures Valid() && Model() == Update(old(Model()), n.key, p)
    {
      hide Linked, Keys;
      n.peer := p;
      assert Model().peers == old(Model().peers)[n.key := p];
    }

    /** `listitem_recdestroy`: releases each entry of a chain that nothing else refers to, once. */
    method Destroy(head: Node?, ghost s: seq<Node>, ghost base: Link)
      requires Chain(head, s, base) && Distinct(s) && Unfreed(s, freed)
      modifies this`freed
      ensures freed == old(freed) + set n | n in s
    {
      var entry := head;
      ghost var j := 0;
      while entry != null
        invariant 0 <= j <= |s| && entry == At(s, j)
        invariant freed == old(freed) + set n | n in s[..j]
        decreases |s| - j
      {
        assert entry == s[j] && entry !in freed;
        var buf := entry.next;
        freed := freed + {entry};
        entry := buf;
        assert s[..j + 1] == s[..j] + [s[j]];
        j := j + 1;
      }
      assert s[..j] == s;
    }

    /** Removes the entries of the old list from the index. */
    method Purge()
      requires Valid()
      modifies this`root, this`left
      ensures left == old(left) + |elder| && Deleted(old(root), root, Keys(elder))
    {
      hide Keys, Linked, NoDup, Indexes, Distinct, Apart, Deleted, Unfreed;
      Parts();
      KeysDistinct(root, young, elder);
      ghost var ks := Keys(elder);
      NoneDeleted(root, ks);
      var p := aged;
      ghost var j := 0;
      while p != null
        invariant 0 <= j <= |elder| && p == At(elder, j)
        invariant left == old(left) + j && Deleted(old(root), root, ks[..j])
        decreases |elder| - j
      {
        assert ks[j] in ks;
        DeletedNext(old(root), root, ks, j);
        assert p.key in root;
        root := root - {p.key};
        left := left + 1;
        p := p.next;
        j := j + 1;
      }
      assert ks[..j] == ks;
    }

    lemma Parts()
      requires Linked()
      ensures Distinct(young) && Distinct(elder) && Apart(young, elder)
      ensures Chain(recent, young, RecentHead) && Chain(aged, elder, AgedHead)
    {
    }

    /** The recent list becomes the old one. */
    method Demote()
      requires Linked()
      modifies this`recent, this`aged, this`young, this`elder, young`back
      ensures Linked() && young == [] && elder == old(young)
    {
      aged := recent;
      recent := null;
      if aged != null {
        aged.back := AgedHead;
      }
      elder := young;
      young := [];
    }

    /** What the collector does while it holds the lock. */
    method Sweep()
      requires Valid()
      modifies this`root, this`left, this`recent, this`aged, this`young, this`elder, young`back
      ensures Linked() && young == [] && elder == old(young) && Indexes(root, young, elder)
      ensures View(root, young, elder, left) == Collect(old(Model()))
    {
      hide Keys, Indexes, Distinct, Apart, Deleted, View, Unfreed, Linked, Chain;
      Parts();
      Purge();
      Collected(old(root), root, young, elder, old(left));
      Demote();
    }

    /** One pass of `garbage_collector` between two sleeps: memory is released after the lock. */
    method CollectGarbage()
      requires Valid() && !locked
      modifies this, young`back
      ensures Valid() && !locked && Model() == Collect(old(Model()))
      ensures freed == old(freed) + set n | n in old(elder)
      ensures young == [] && elder == old(young)
    {
      hide Keys, Indexes, Distinct, Apart, View, Unfreed, Linked, Chain;
      Parts();
      StaysUnfreed(young, elder, freed);
      ghost var dead := elder;
      locked := true;
      var doomed := aged;
      Sweep();
      locked := false;
      Destroy(doomed, dead, AgedHead);
    }

    /** `teredo_list_reset` */
    method Reset(max: nat)
      requires Valid() && !locked
      modifies this
      ensures Valid() && !locked && Model() == Empty(max)
      ensures freed == old(freed) + (set n | n in old(elder)) + set n | n in old(young)
      ensures young == [] && elder == []
    {
      hide Distinct, Chain, Unfreed, Apart;
      locked := true;
      root := map[];
      var r, o := recent, aged;
      ghost var y, e := young, elder;
      recent, aged, left := null, null, max;
      young, elder := [], [];
      locked := false;
      StaysUnfreed(y, e, freed);
      Destroy(o, e, AgedHead);
      Destroy(r, y, RecentHead);
      EmptyValid();
    }

    lemma EmptyValid()
      requires recent == aged == null && young == elder == [] && root == map[]
      ensures Valid() && Model() == Empty(left)
    {
    }
  }
}
