/** What the three streaming hash contexts of the repository have in common:
    64-byte blocks chained through a compression function, and a partly filled buffer. */
module Streaming {

  type Octets = seq<bv8>
  type Block = s: Octets | |s| == 64 witness seq(64, _ => 0)

  const TWO32: nat := 0x1_0000_0000

  /** How many bytes of an n-byte message are waiting in the buffer. */
  function Fill(n: nat): (r: nat)
    ensures r < 64
  {
    n % 64
  }

  /** Chains the blocks of a message through the compression function `f`. */
  function Chain<H>(f: (H, Block) -> H, h: H, m: Octets): H
    requires |m| % 64 == 0
  {
    if m == [] then h else Chain(f, f(h, m[..64]), m[64..])
  }

  lemma {:induction false} ChainSnoc<H>(f: (H, Block) -> H, h: H, m: Octets, b: Block)
    requires |m| % 64 == 0
    ensures Chain(f, h, m + b) == f(Chain(f, h, m), b)
    decreases |m|
  {
    if m == [] {
      assert m + b == b && b[..64] == b && b[64..] == [];
    } else {
      assert (m + b)[..64] == m[..64] && (m + b)[64..] == m[64..] + b;
      ChainSnoc(f, f(h, m[..64]), m[64..], b);
    }
  }

  /** A context that has absorbed `msg`: whole blocks chained into `h`, the rest kept in `tail`. */
  ghost predicate Absorbed<H>(f: (H, Block) -> H, init: H, msg: Octets, h: H, tail: Octets) {
    && |tail| == Fill(|msg|)
    && tail == msg[|msg| - |tail|..]
    && h == Chain(f, init, msg[..|msg| - |tail|])
  }

  lemma KeepTail<H>(f: (H, Block) -> H, init: H, msg: Octets, h: H, tail: Octets, more: Octets)
    requires Absorbed(f, init, msg, h, tail) && |tail| + |more| < 64
    ensures Absorbed(f, init, msg + more, h, tail + more) && Fill(|msg + more|) == |tail| + |more|
  {
    assert (msg + more)[..|msg| - |tail|] == msg[..|msg| - |tail|];
  }

  lemma FillBlock<H>(f: (H, Block) -> H, init: H, msg: Octets, h: H, tail: Octets, more: Octets)
    requires Absorbed(f, init, msg, h, tail) && |tail| + |more| == 64
    ensures Absorbed(f, init, msg + more, f(h, tail + more), []) && Fill(|msg + more|) == 0
  {
    var head := msg[..|msg| - |tail|];
    assert msg + more == head + (tail + more);
    ChainSnoc(f, init, head, tail + more);
    assert (msg + more)[..|msg + more|] == msg + more;
  }

  lemma AbsorbedWhole<H>(f: (H, Block) -> H, init: H, msg: Octets, h: H, tail: Octets)
    requires Absorbed(f, init, msg, h, tail) && Fill(|msg|) == 0
    ensures h == Chain(f, init, msg)
  {
    assert msg[..|msg|] == msg;
  }

  /** The end of an update: what follows the whole blocks stays in the buffer. */
  lemma KeepRest<H>(f: (H, Block) -> H, init: H, msg: Octets, h: H, data: Octets, p: nat)
    requires p <= |data| < p + 64 && Absorbed(f, init, msg + data[..p], h, [])
    ensures Absorbed(f, init, msg + data, h, data[p..]) && Fill(|msg + data|) == |data| - p
  {
    hide Fill, Chain, Absorbed;
    KeepTail(f, init, msg + data[..p], h, [], data[p..]);
    assert msg + data[..p] + data[p..] == msg + data;
    assert [] + data[p..] == data[p..];
  }

  /** One whole block taken straight from the input. */
  lemma NextBlock<H>(f: (H, Block) -> H, init: H, msg: Octets, h: H, data: Octets, p: nat)
    requires p + 64 <= |data| && Absorbed(f, init, msg + data[..p], h, [])
    ensures Absorbed(f, init, msg + data[..p + 64], f(h, data[p..p + 64]), [])
  {
    hide Fill, Chain, Absorbed;
    FillBlock(f, init, msg + data[..p], h, [], data[p..p + 64]);
    assert [] + data[p..p + 64] == data[p..p + 64];
    assert msg + data[..p] + data[p..p + 64] == msg + data[..p + 64];
  }

  // ---- Padding ----

  function Zeros(n: nat): (z: Octets)
    ensures |z| == n
  {
    seq(n, _ => 0)
  }

  /** How many zero bytes follow the 0x80 byte: the least that leave room for eight more. */
  function PadZeros(n: nat): (z: nat)
    ensures z < 64
    ensures (n + 1 + z + 8) % 64 == 0
  {
    (119 - n % 64) % 64
  }

  function Padded(msg: Octets, length: Octets): (m: Octets)
    requires |length| == 8
    ensures |m| % 64 == 0 && Fill(|m|) == 0
  {
    msg + [0x80] + Zeros(PadZeros(|msg|)) + length
  }

  function Octet(n: nat): bv8 {
    (n % 256) as bv8
  }

  /** The four bytes of a 32-bit number, least significant first. */
  function LittleOctets(n: nat): (s: Octets)
    ensures |s| == 4
  {
    [Octet(n), Octet(n / 0x100), Octet(n / 0x1_0000), Octet(n / 0x100_0000)]
  }

  function BigOctets(n: nat): (s: Octets)
    ensures |s| == 4
  {
    [Octet(n / 0x100_0000), Octet(n / 0x1_0000), Octet(n / 0x100), Octet(n)]
  }

  // ---- The 64-bit message length, kept in two 32-bit words ----

  /** Low and high word of the bit count of an n-byte message, modulo 2^64. */
  function LowBits(n: nat): (w: nat)
    ensures w < TWO32
  {
    8 * n % TWO32
  }

  function HighBits(n: nat): (w: nat)
    ensures w < TWO32
  {
    8 * n / TWO32 % TWO32
  }

  lemma Euclid32(n: int, q: int, r: int)
    requires n == TWO32 * q + r && 0 <= r < TWO32
    ensures n / TWO32 == q && n % TWO32 == r
  {
  }

  lemma ModPlus(a: nat, b: nat)
    ensures (a % TWO32 + b) % TWO32 == (a + b) % TWO32
  {
    var q := a / TWO32;
    var c := a % TWO32 + b;
    Euclid32(a + b, q + c / TWO32, c % TWO32);
  }

  /** The high word, with the carry added before or after the high part of the increment. */
  lemma CarryEitherWay(q: nat, h: nat, carry: nat)
    ensures ((q % TWO32 + h) % TWO32 + carry) % TWO32 == (q + h + carry) % TWO32
    ensures ((q % TWO32 + carry) % TWO32 + h) % TWO32 == (q + h + carry) % TWO32
  {
    ModPlus(q, h);
    ModPlus(q + h, carry);
    ModPlus(q, carry);
    ModPlus(q + carry, h);
  }

  /** Adding k bytes with a carry from the low word to the high one. */
  lemma CountBytes(n: nat, k: nat)
    requires k < TWO32
    ensures var nbits, h := 8 * k % TWO32, k / 0x2000_0000;
            var low := (LowBits(n) + nbits) % TWO32;
            var carry := if low < nbits then 1 else 0;
            && low == LowBits(n + k)
            && ((HighBits(n) + h) % TWO32 + carry) % TWO32 == HighBits(n + k)
            && ((HighBits(n) + carry) % TWO32 + h) % TWO32 == HighBits(n + k)
  {
    var nbits, h := 8 * k % TWO32, k / 0x2000_0000;
    var q, r := 8 * n / TWO32, 8 * n % TWO32;
    assert 8 * k == nbits + TWO32 * h;
    var carry := if r + nbits >= TWO32 then 1 else 0;
    Euclid32(8 * (n + k), q + h + carry, r + nbits - TWO32 * carry);
    CarryEitherWay(q, h, carry);
  }

  lemma Mod64Shift(m: int, k: int)
    ensures (m + 64 * k) % 64 == m % 64
  {
  }

  lemma BufferOffset(n: nat)
    ensures LowBits(n) / 8 % 64 == Fill(n)
  {
    var q := 8 * n / TWO32;
    var m := n - 0x2000_0000 * q;
    assert LowBits(n) / 8 == m;
    Mod64Shift(m, 0x80_0000 * q);
  }

  // ---- Buffer copies ----

  method CopyInto(buf: array<bv8>, at: nat, data: Octets)
    requires at + |data| <= buf.Length
    modifies buf
    ensures buf[..at] == old(buf[..at])
    ensures buf[at..at + |data|] == data
    ensures buf[..at + |data|] == old(buf[..at]) + data
    ensures buf[at + |data|..] == old(buf[at + |data|..])
  {
    forall i | 0 <= i < |data| {
      buf[at + i] := data[i];
    }
    assert buf[at..at + |data|] == data;
    assert buf[..at + |data|] == buf[..at] + buf[at..at + |data|];
  }
}
