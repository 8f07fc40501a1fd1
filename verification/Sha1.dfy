/** SHA-1 by the 80-word method of section 6.1 of RFC 3174. */
module Sha1 {
  import opened Streaming
  import opened Md5

  datatype Regs5 = Regs5(a: bv32, b: bv32, c: bv32, d: bv32, e: bv32)

  const IV := Regs5(0x67452301, 0xEFCDAB89, 0x98BADCFE, 0x10325476, 0xC3D2E1F0)

  function PackBE(b0: bv8, b1: bv8, b2: bv8, b3: bv8): bv32 {
    ((b0 as bv32) << 24) | ((b1 as bv32) << 16) | ((b2 as bv32) << 8) | (b3 as bv32)
  }

  function LoadBE(b: Octets, i: nat): bv32
    requires i + 4 <= |b|
  {
    PackBE(b[i], b[i + 1], b[i + 2], b[i + 3])
  }

  function Xor4(x: bv32, y: bv32, z: bv32, w: bv32): bv32 {
    x ^ y ^ z ^ w
  }

  /** The message schedule: sixteen words of the block, then each a rotated exclusive or of earlier ones. */
  function W(m: Block, t: nat): bv32 {
    if t < 16 then LoadBE(m, 4 * t)
    else Rol(Xor4(W(m, t - 3), W(m, t - 8), W(m, t - 14), W(m, t - 16)), 1)
  }

  function Logic(stage: nat, b: bv32, c: bv32, d: bv32): bv32 {
    if stage == 0 then (b & c) | (!b & d)
    else if stage == 2 then (b & c) | (b & d) | (c & d)
    else b ^ c ^ d
  }

  function K(stage: nat): bv32 {
    if stage == 0 then 0x5A827999
    else if stage == 1 then 0x6ED9EBA1
    else if stage == 2 then 0x8F1BBCDC
    else 0xCA62C1D6
  }

  /** `S^5(A) + f(t;B,C,D) + E + W(t) + K(t)` */
  function Add5(s: bv32, f: bv32, e: bv32, w: bv32, k: bv32): bv32 {
    s + f + e + w + k
  }

  function Temp(stage: nat, r: Regs5, w: bv32): bv32 {
    Add5(Rol(r.a, 5), Logic(stage, r.b, r.c, r.d), r.e, w, K(stage))
  }

  function Steps(n: nat, r: Regs5, m: Block): Regs5
    requires n <= 80
  {
    if n == 0 then r
    else
      var p := Steps(n - 1, r, m);
      Regs5(Temp((n - 1) / 20, p, W(m, n - 1)), p.a, Rol(p.b, 30), p.c, p.d)
  }

  function Plus5(r: Regs5, q: Regs5): Regs5 {
    Regs5(Add(r.a, q.a), Add(r.b, q.b), Add(r.c, q.c), Add(r.d, q.d), Add(r.e, q.e))
  }

  function Compress5(r: Regs5, m: Block): Regs5 {
    Plus5(r, Steps(80, r, m))
  }

  function WordOutBE(w: bv32): (s: Octets)
    ensures |s| == 4
  {
    [((w >> 24) & 0xff) as bv8, ((w >> 16) & 0xff) as bv8, ((w >> 8) & 0xff) as bv8, (w & 0xff) as bv8]
  }

  function Output5(r: Regs5): (s: Octets)
    ensures |s| == 20
  {
    WordOutBE(r.a) + WordOutBE(r.b) + WordOutBE(r.c) + WordOutBE(r.d) + WordOutBE(r.e)
  }

  function LengthFieldBE(n: nat): (s: Octets)
    ensures |s| == 8
  {
    BigOctets(HighBits(n)) + BigOctets(LowBits(n))
  }

  function Digest5(msg: Octets): (s: Octets)
    ensures |s| == 20
  {
    Output5(Chain(Compress5, IV, Padded(msg, LengthFieldBE(|msg|))))
  }
}

/** The implementation in aiccu/hash_sha1.c: the schedule is computed in place, in a ring of sixteen words. */
module AiccuSha1 {
  import opened Pieces
  import opened Streaming
  import opened Md5
  import opened Sha1
  import opened Net

  // ---- Rewritten round functions ----

  function FastLogic(stage: nat, w: bv32, x: bv32, y: bv32): bv32 {
    if stage == 0 then (w & (x ^ y)) ^ y
    else if stage == 2 then ((w | x) & y) | (w & x)
    else w ^ x ^ y
  }

  lemma ChooseRewritten(w: bv32, x: bv32, y: bv32)
    ensures (w & (x ^ y)) ^ y == (w & x) | (!w & y)
  {
  }

  lemma MajorityRewritten(w: bv32, x: bv32, y: bv32)
    ensures ((w | x) & y) | (w & x) == (w & x) | (w & y) | (x & y)
  {
  }

  lemma FastLogicIsLogic(stage: nat, w: bv32, x: bv32, y: bv32)
    ensures FastLogic(stage, w, x, y) == Logic(stage, w, x, y)
  {
    ChooseRewritten(w, x, y);
    MajorityRewritten(w, x, y);
  }

  /** `z += f + blk + K + rol(v,5)` */
  function Gather(z: bv32, f: bv32, blk: bv32, k: bv32, s: bv32): bv32 {
    z + (f + blk + k + s)
  }

  lemma GatherIsAdd5(z: bv32, f: bv32, blk: bv32, k: bv32, s: bv32)
    ensures Gather(z, f, blk, k, s) == Add5(s, f, z, blk, k)
  {
  }

  /** The new value of `z` in SHA_R0 to SHA_R4. */
  function Round(stage: nat, v: bv32, w: bv32, x: bv32, y: bv32, z: bv32, blk: bv32): bv32 {
    Gather(z, FastLogic(stage, w, x, y), blk, K(stage), Rol(v, 5))
  }

  lemma RoundIsTemp(stage: nat, r: Regs5, blk: bv32)
    ensures Round(stage, r.a, r.b, r.c, r.d, r.e, blk) == Temp(stage, r, blk)
  {
    hide FastLogic, Logic, Gather, Add5, Rol, K;
    FastLogicIsLogic(stage, r.b, r.c, r.d);
    GatherIsAdd5(r.e, Logic(stage, r.b, r.c, r.d), blk, K(stage), Rol(r.a, 5));
  }

  lemma RoundIsStep(t: nat, r0: Regs5, m: Block, r: Regs5, blk: bv32)
    requires t < 80 && r == Steps(t, r0, m) && blk == W(m, t)
    ensures Steps(t + 1, r0, m)
         == Regs5(Round(t / 20, r.a, r.b, r.c, r.d, r.e, blk), r.a, Rol(r.b, 30), r.c, r.d)
  {
    hide Round, Temp, Rol, W;
    RoundIsTemp(t / 20, r, blk);
  }

  // ---- The ring ----

  function LoadNative(host: ByteOrder, b: Octets, i: nat): bv32
    requires i + 4 <= |b|
  {
    match host
    case LittleEndian => LoadLE(b, i)
    case BigEndian => LoadBE(b, i)
  }

  /** blk0: on a little-endian host the loaded word is byte-swapped by two rotations. */
  function Swap(x: bv32): bv32 {
    (((x << 24) | (x >> 8)) & 0xFF00FF00) | (((x << 8) | (x >> 24)) & 0x00FF00FF)
  }

  lemma SwapReverses(b0: bv8, b1: bv8, b2: bv8, b3: bv8)
    ensures Swap(PackLE(b0, b1, b2, b3)) == PackBE(b0, b1, b2, b3)
  {
  }

  lemma SwapLoad(b: Octets, i: nat)
    requires i + 4 <= |b|
    ensures Swap(LoadLE(b, i)) == LoadBE(b, i)
  {
    hide Swap, PackLE, PackBE;
    SwapReverses(b[i], b[i + 1], b[i + 2], b[i + 3]);
  }

  /** Before step t: words not yet used are as loaded, the last sixteen used are schedule words. */
  ghost predicate RingAt(host: ByteOrder, l: seq<bv32>, m: Block, t: nat) {
    && |l| == 16
    && (forall j :: t <= j < 16 ==> l[j] == LoadNative(host, m, 4 * j))
    && (forall j {:trigger W(m, j)} :: 0 <= j < t <= j + 16 ==> l[j % 16] == W(m, j))
  }

  lemma RingSlot(t: nat, j: nat)
    requires t <= j + 16 && j < t && j % 16 == t % 16
    ensures j == t - 16
  {
  }

  lemma RingAdvance(host: ByteOrder, l: seq<bv32>, m: Block, t: nat)
    requires RingAt(host, l, m, t)
    ensures RingAt(host, l[t % 16 := W(m, t)], m, t + 1)
  {
    var l' := l[t % 16 := W(m, t)];
    forall j {:trigger W(m, j)} | 0 <= j < t + 1 <= j + 16 ensures l'[j % 16] == W(m, j) {
      if j < t && j % 16 == t % 16 {
        RingSlot(t, j);
      }
    }
  }

  method Blk(host: ByteOrder, l: array<bv32>, t: nat, ghost m: Block) returns (w: bv32)
    requires l.Length == 16 && RingAt(host, l[..], m, t)
    modifies l
    ensures w == W(m, t) && RingAt(host, l[..], m, t + 1)
  {
    hide W, Rol, Xor4, LoadNative, RingAt, Swap;
    RingAdvance(host, l[..], m, t);
    if t < 16 {
      w := BlkZero(host, l, t, m);
    } else {
      w := Rol(Xor4(l[(t + 13) % 16], l[(t + 8) % 16], l[(t + 2) % 16], l[t % 16]), 1);
      BlkWord(host, l[..], m, t);
    }
    assert l[..][t % 16 := w] == l[..t % 16] + [w] + l[t % 16 + 1..];
    l[t % 16] := w;
    assert l[..] == old(l[..])[t % 16 := w];
  }

  method BlkZero(host: ByteOrder, l: array<bv32>, t: nat, ghost m: Block) returns (w: bv32)
    requires l.Length == 16 && t < 16 && RingAt(host, l[..], m, t)
    ensures w == W(m, t)
  {
    hide Swap, PackLE, PackBE;
    w := if host == LittleEndian then Swap(l[t]) else l[t];
    assert l[..][t] == LoadNative(host, m, 4 * t);
    SwapLoad(m, 4 * t);
  }

  lemma BlkWord(host: ByteOrder, l: seq<bv32>, m: Block, t: nat)
    requires t >= 16 && RingAt(host, l, m, t)
    ensures W(m, t) == Rol(Xor4(l[(t + 13) % 16], l[(t + 8) % 16], l[(t + 2) % 16], l[t % 16]), 1)
  {
    hide Rol, Xor4;
    assert (t + 13) % 16 == (t - 3) % 16 && (t + 8) % 16 == (t - 8) % 16;
    assert (t + 2) % 16 == (t - 14) % 16 && t % 16 == (t - 16) % 16;
    assert l[(t - 3) % 16] == W(m, t - 3) && l[(t - 8) % 16] == W(m, t - 8);
    assert l[(t - 14) % 16] == W(m, t - 14) && l[(t - 16) % 16] == W(m, t - 16);
  }

  /** The eighty rounds, five at a time so that every register is back in its own role. */
  method Rounds80(host: ByteOrder, r: Regs5, l: array<bv32>, ghost m: Block) returns (q: Regs5)
    requires l.Length == 16 && RingAt(host, l[..], m, 0)
    modifies l
    ensures q == Steps(80, r, m)
  {
    hide Round, Rol, W, RingAt, Steps;
    var a, b, c, d, e := r.a, r.b, r.c, r.d, r.e;
    var t := 0;
    StepsZero(r, m);
    while t < 80
      invariant 0 <= t <= 80 && t % 5 == 0
      invariant RingAt(host, l[..], m, t)
      invariant Regs5(a, b, c, d, e) == Steps(t, r, m)
    {
      var w := Blk(host, l, t, m);
      RoundIsStep(t, r, m, Regs5(a, b, c, d, e), w);
      e, b := Round(t / 20, a, b, c, d, e, w), Rol(b, 30);
      w := Blk(host, l, t + 1, m);
      RoundIsStep(t + 1, r, m, Regs5(e, a, b, c, d), w);
      d, a := Round((t + 1) / 20, e, a, b, c, d, w), Rol(a, 30);
      w := Blk(host, l, t + 2, m);
      RoundIsStep(t + 2, r, m, Regs5(d, e, a, b, c), w);
      c, e := Round((t + 2) / 20, d, e, a, b, c, w), Rol(e, 30);
      w := Blk(host, l, t + 3, m);
      RoundIsStep(t + 3, r, m, Regs5(c, d, e, a, b), w);
      b, d := Round((t + 3) / 20, c, d, e, a, b, w), Rol(d, 30);
      w := Blk(host, l, t + 4, m);
      RoundIsStep(t + 4, r, m, Regs5(b, c, d, e, a), w);
      a, c := Round((t + 4) / 20, b, c, d, e, a, w), Rol(c, 30);
      t := t + 5;
    }
    q := Regs5(a, b, c, d, e);
  }

  lemma StepsZero(r: Regs5, m: Block)
    ensures Steps(0, r, m) == r
  {
  }

  // ---- One block ----

  function NativeOctet(host: ByteOrder, w: bv32, i: nat): bv8
    requires i < 4
  {
    var k := if host == LittleEndian then i else 3 - i;
    WordOut(w)[k]
  }

  /** `SHA1_Transform` on the 64 bytes at offset `at`, which it overwrites with the ring. */
  method Transform(host: ByteOrder, r: Regs5, mem: array<bv8>, at: nat) returns (q: Regs5)
    requires at + 64 <= mem.Length
    modifies mem
    ensures q == Compress5(r, old(mem[at..at + 64]))
    ensures mem[..at] == old(mem[..at]) && mem[at + 64..] == old(mem[at + 64..])
  {
    hide Steps, Add, LoadNative, NativeOctet;
    ghost var m: Block := mem[at..at + 64];
    var b := mem[at..at + 64];
    var l := new bv32[16](i requires 0 <= i < 16 && |b| == 64 => LoadNative(host, b, 4 * i));
    q := Rounds80(host, r, l, m);
    forall i | 0 <= i < 64 {
      mem[at + i] := NativeOctet(host, l[i / 4], i % 4);
    }
    q := Regs5(Add(r.a, q.a), Add(r.b, q.b), Add(r.c, q.c), Add(r.d, q.d), Add(r.e, q.e));
  }

  /** `SHA_CTX`.  The ghost `msg` is everything fed in since `SHA1_Init`. */
  class Context {
    const host: ByteOrder
    var state: Regs5
    var count0: nat
    var count1: nat
    var buffer: array<bv8>
    ghost var msg: Octets

    ghost predicate Valid()
      reads this, buffer
    {
      && buffer.Length == 64
      && count0 == LowBits(|msg|) && count1 == HighBits(|msg|)
      && Absorbed(Compress5, IV, msg, state, buffer[..Fill(|msg|)])
    }

    /** `SHA1_Init` */
    constructor (host: ByteOrder)
      ensures Valid() && fresh(buffer) && msg == []
    {
      hide Compress5;
      this.host := host;
      state := Regs5(0x67452301, 0xEFCDAB89, 0x98BADCFE, 0x10325476, 0xC3D2E1F0);
      count0, count1 := 0, 0;
      buffer := new bv8[64](_ => 0);
      msg := [];
    }

    /** `SHA1_Update`, for lengths whose sum with a buffer offset fits an `unsigned int`. */
    method Update(d: Octets)
      requires Valid() && |d| < TWO32 - 63
      modifies this, buffer
      ensures Valid() && buffer == old(buffer) && msg == old(msg) + d
    {
      hide Compress5, Chain, Fill, LowBits, HighBits, Absorbed;
      var j := count0 / 8 % 64;
      BufferOffset(|msg|);
      AddCount(|d|);
      Absorb(d, j);
    }

    /** The length arithmetic of `SHA1_Update`. */
    method AddCount(len: nat)
      requires count0 == LowBits(|msg|) && count1 == HighBits(|msg|) && len < TWO32
      modifies this`count0, this`count1
      ensures count0 == LowBits(|msg| + len) && count1 == HighBits(|msg| + len)
    {
      hide LowBits, HighBits;
      CountBytes(|msg|, len);
      var bits := 8 * len % TWO32;
      count0 := (count0 + bits) % TWO32;
      if count0 < bits {
        count1 := (count1 + 1) % TWO32;
      }
      count1 := (count1 + len / 0x2000_0000) % TWO32;
    }

    /** The buffer handling of `SHA1_Update`. */
    method Absorb(d: Octets, j: nat)
      requires buffer.Length == 64 && j == Fill(|msg|)
      requires Absorbed(Compress5, IV, msg, state, buffer[..j])
      modifies this`state, this`msg, buffer
      ensures msg == old(msg) + d
      ensures Absorbed(Compress5, IV, msg, state, buffer[..Fill(|msg|)])
    {
      hide Compress5, Chain, Fill, Absorbed;
      if j + |d| > 63 {
        TopUp(d[..64 - j]);
        Rest(d[64 - j..]);
        assert d[..64 - j] + d[64 - j..] == d;
      } else {
        CopyInto(buffer, j, d);
        KeepTail(Compress5, IV, msg, state, old(buffer[..j]), d);
        msg := msg + d;
      }
    }

    /** Completes the buffered block and transforms it in place. */
    method TopUp(data: Octets)
      requires buffer.Length == 64 && Fill(|msg|) + |data| == 64
      requires Absorbed(Compress5, IV, msg, state, buffer[..Fill(|msg|)])
      modifies this`state, this`msg, buffer
      ensures msg == old(msg) + data && Fill(|msg|) == 0
      ensures Absorbed(Compress5, IV, msg, state, [])
    {
      hide Compress5, Chain, Fill, Absorbed;
      CopyInto(buffer, 64 - |data|, data);
      FillBlock(Compress5, IV, msg, state, old(buffer[..Fill(|msg|)]), data);
      assert buffer[0..0 + 64] == buffer[..64];
      state := Transform(host, state, buffer, 0);
      msg := msg + data;
    }

    /** Transforms the whole blocks of the input and buffers what is left. */
    method Rest(d: Octets)
      requires buffer.Length == 64 && Fill(|msg|) == 0
      requires Absorbed(Compress5, IV, msg, state, [])
      modifies this`state, this`msg, buffer
      ensures msg == old(msg) + d
      ensures Absorbed(Compress5, IV, msg, state, buffer[..Fill(|msg|)])
    {
      hide Compress5, Chain, Fill, Absorbed;
      var i;
      state, i := WholeBlocks(host, state, msg, d);
      KeepRest(Compress5, IV, msg, state, d, i);
      CopyInto(buffer, 0, d[i..]);
      msg := msg + d;
    }

    /** `SHA1_Final`: the padding is fed one byte at a time until eight bytes of the block are left; `steps` is how
        often the loop runs. */
    method Final() returns (digest: Octets, ghost steps: nat)
      requires Valid()
      modifies this, buffer
      ensures digest == Digest5(old(msg))
      ensures steps < 64
    {
      hide Compress5, Chain, Fill, LowBits, HighBits, Absorbed, Output5, BigOctets, Padded, PadZeros;
      ghost var m := msg;
      var finalcount := BigOctets(count1) + BigOctets(count0);
      Update([0x80]);
      ghost var k := 0;
      assert m + [0x80] + Zeros(0) == m + [0x80];
      BufferOffset(|msg|);
      Remaining(|m|, k);
      while count0 / 8 % 64 != 56                        // (count[0] & 504) != 448
        invariant Valid() && buffer == old(buffer)
        invariant k <= PadZeros(|m|) && msg == m + [0x80] + Zeros(k)
        decreases PadZeros(|m|) - k
      {
        BufferOffset(|msg|);
        Remaining(|m|, k);
        Update([0]);
        assert Zeros(k) + [0] == Zeros(k + 1);
        k := k + 1;
      }
      BufferOffset(|msg|);
      Remaining(|m|, k);
      Update(finalcount);
      PaddedIs(m, finalcount, k);
      AbsorbedWhole(Compress5, IV, msg, state, buffer[..Fill(|msg|)]);
      digest := Output5(state);
      steps := k;
    }
  }

  /** The loop stops after exactly as many zero bytes as the padding rule asks for, hence before the 64th. */
  lemma Remaining(n: nat, k: nat)
    requires k <= PadZeros(n)
    ensures Fill(n + 1 + k) == 56 <==> k == PadZeros(n)
    ensures k == PadZeros(n) ==> Fill(n + 1 + k + 8) == 0
    ensures PadZeros(n) < 64
  {
  }

  lemma PaddedIs(m: Octets, length: Octets, k: nat)
    requires |length| == 8 && k == PadZeros(|m|)
    ensures m + [0x80] + Zeros(k) + length == Padded(m, length)
  {
  }

  /** Whole blocks are transformed in a scratch copy of the input, which they overwrite. */
  method WholeBlocks(host: ByteOrder, r: Regs5, ghost m: Octets, d: Octets) returns (q: Regs5, i: nat)
    requires Fill(|m|) == 0 && Absorbed(Compress5, IV, m, r, [])
    ensures i <= |d| && |d| - i < 64
    ensures Absorbed(Compress5, IV, m + d[..i], q, [])
  {
    hide Compress5, Chain, Fill, Absorbed;
    var data := new bv8[|d|];
    CopyInto(data, 0, d);
    q, i := r, 0;
    assert m + d[..0] == m;
    while i + 63 < |d|
      invariant i <= |d| && data[i..] == d[i..]
      invariant Absorbed(Compress5, IV, m + d[..i], q, [])
    {
      NextBlock(Compress5, IV, m, q, d, i);
      assert data[i..i + 64] == data[i..][..64] == d[i..i + 64];
      q := Transform(host, q, data, i);
      assert data[i + 64..] == d[i..][64..];
      i := i + 64;
    }
  }

  /** Any chunking of a message gives its RFC 3174 digest, on hosts of either byte order. */
  method DigestChunks(host: ByteOrder, chunks: seq<Octets>) returns (digest: Octets)
    requires forall c :: c in chunks ==> |c| < TWO32 - 63
    ensures digest == Digest5(Concat(chunks))
  {
    hide Digest5, Compress5, Chain, Fill, Absorbed;
    var c := new Context(host);
    for i := 0 to |chunks|
      invariant c.Valid() && fresh(c) && fresh(c.buffer) && c.msg == Concat(chunks[..i])
    {
      c.Update(chunks[i]);
      ConcatSnoc(chunks, i);
    }
    assert chunks[..|chunks|] == chunks;
    ghost var steps;
    digest, steps := c.Final();
  }
}
