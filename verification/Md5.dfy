/** MD5 as section 3 of RFC 1321 defines it. */
module Md5 {
  import opened Streaming

  datatype Regs = Regs(a: bv32, b: bv32, c: bv32, d: bv32)

  const INIT := Regs(0x67452301, 0xefcdab89, 0x98badcfe, 0x10325476)

  type Amount = n: nat | n <= 32
  type Index = n: nat | n < 16
  type Words = s: seq<bv32> | |s| == 16 witness seq(16, _ => 0)

  function Add(x: bv32, y: bv32): bv32 {
    x + y
  }

  function Add4(x: bv32, y: bv32, z: bv32, w: bv32): bv32 {
    x + y + z + w
  }

  function Rol(x: bv32, n: Amount): bv32 {
    (x << n) | (x >> (32 - n))
  }

  /** F, G, H and I of section 3.4, by round. */
  function Aux(round: nat, x: bv32, y: bv32, z: bv32): bv32 {
    if round == 0 then (x & y) | (!x & z)
    else if round == 1 then (x & z) | (y & !z)
    else if round == 2 then x ^ y ^ z
    else y ^ (x | !z)
  }

  /** One operation of a round: which message word, which rotation, which additive constant. */
  datatype Op = E(k: Index, s: Amount, t: bv32)

  /** The four rounds of section 3.4, operation by operation. */
  function Standard(): (ops: seq<Op>)
    ensures |ops| == 64
  {
    [E(0, 7, 0xd76aa478), E(1, 12, 0xe8c7b756), E(2, 17, 0x242070db), E(3, 22, 0xc1bdceee),
     E(4, 7, 0xf57c0faf), E(5, 12, 0x4787c62a), E(6, 17, 0xa8304613), E(7, 22, 0xfd469501),
     E(8, 7, 0x698098d8), E(9, 12, 0x8b44f7af), E(10, 17, 0xffff5bb1), E(11, 22, 0x895cd7be),
     E(12, 7, 0x6b901122), E(13, 12, 0xfd987193), E(14, 17, 0xa679438e), E(15, 22, 0x49b40821),
     E(1, 5, 0xf61e2562), E(6, 9, 0xc040b340), E(11, 14, 0x265e5a51), E(0, 20, 0xe9b6c7aa),
     E(5, 5, 0xd62f105d), E(10, 9, 0x02441453), E(15, 14, 0xd8a1e681), E(4, 20, 0xe7d3fbc8),
     E(9, 5, 0x21e1cde6), E(14, 9, 0xc33707d6), E(3, 14, 0xf4d50d87), E(8, 20, 0x455a14ed),
     E(13, 5, 0xa9e3e905), E(2, 9, 0xfcefa3f8), E(7, 14, 0x676f02d9), E(12, 20, 0x8d2a4c8a),
     E(5, 4, 0xfffa3942), E(8, 11, 0x8771f681), E(11, 16, 0x6d9d6122), E(14, 23, 0xfde5380c),
     E(1, 4, 0xa4beea44), E(4, 11, 0x4bdecfa9), E(7, 16, 0xf6bb4b60), E(10, 23, 0xbebfbc70),
     E(13, 4, 0x289b7ec6), E(0, 11, 0xeaa127fa), E(3, 16, 0xd4ef3085), E(6, 23, 0x04881d05),
     E(9, 4, 0xd9d4d039), E(12, 11, 0xe6db99e5), E(15, 16, 0x1fa27cf8), E(2, 23, 0xc4ac5665),
     E(0, 6, 0xf4292244), E(7, 10, 0x432aff97), E(14, 15, 0xab9423a7), E(5, 21, 0xfc93a039),
     E(12, 6, 0x655b59c3), E(3, 10, 0x8f0ccc92), E(10, 15, 0xffeff47d), E(1, 21, 0x85845dd1),
     E(8, 6, 0x6fa87e4f), E(15, 10, 0xfe2ce6e0), E(6, 15, 0xa3014314), E(13, 21, 0x4e0811a1),
     E(4, 6, 0xf7537e82), E(11, 10, 0xbd3af235), E(2, 15, 0x2ad7d2bb), E(9, 21, 0xeb86d391)]
  }

  /** `a = b + ((a + f(b,c,d) + X[k] + T[i]) <<< s)` */
  function Mix(round: nat, r: Regs, x: bv32, e: Op): bv32 {
    Add(r.b, Rol(Add4(r.a, Aux(round, r.b, r.c, r.d), x, e.t), e.s))
  }

  /** The registers after the first n operations; each one shifts their roles along. */
  function Rounds(n: nat, r: Regs, x: Words): Regs
    requires n <= 64
  {
    if n == 0 then r
    else
      var p, e := Rounds(n - 1, r, x), Standard()[n - 1];
      Regs(p.d, Mix((n - 1) / 16, p, x[e.k], e), p.b, p.c)
  }

  function PackLE(b0: bv8, b1: bv8, b2: bv8, b3: bv8): bv32 {
    (b0 as bv32) | ((b1 as bv32) << 8) | ((b2 as bv32) << 16) | ((b3 as bv32) << 24)
  }

  function LoadLE(b: Octets, i: nat): bv32
    requires i + 4 <= |b|
  {
    PackLE(b[i], b[i + 1], b[i + 2], b[i + 3])
  }

  function WordsOf(b: Block): Words {
    seq(16, i requires 0 <= i < 16 => LoadLE(b, 4 * i))
  }

  function Plus(r: Regs, q: Regs): Regs {
    Regs(Add(r.a, q.a), Add(r.b, q.b), Add(r.c, q.c), Add(r.d, q.d))
  }

  function Compress(r: Regs, b: Block): Regs {
    Plus(r, Rounds(64, r, WordsOf(b)))
  }

  function WordOut(w: bv32): (s: Octets)
    ensures |s| == 4
  {
    [(w & 0xff) as bv8, ((w >> 8) & 0xff) as bv8, ((w >> 16) & 0xff) as bv8, ((w >> 24) & 0xff) as bv8]
  }

  function Output(r: Regs): (s: Octets)
    ensures |s| == 16
  {
    WordOut(r.a) + WordOut(r.b) + WordOut(r.c) + WordOut(r.d)
  }

  function LengthField(n: nat): (s: Octets)
    ensures |s| == 8
  {
    LittleOctets(LowBits(n)) + LittleOctets(HighBits(n))
  }

  /** Pad, chain the blocks, output the registers low byte first. */
  function Digest(msg: Octets): (s: Octets)
    ensures |s| == 16
  {
    Output(Chain(Compress, INIT, Padded(msg, LengthField(|msg|))))
  }

  lemma AddCommutes(x: bv32, y: bv32)
    ensures Add(x, y) == Add(y, x)
  {
  }

  lemma RoundsZero(r: Regs, x: Words)
    ensures Rounds(0, r, x) == r
  {
  }
}

/** The implementation in miredo/libteredo/md5.c: bit counts, length appended as data. */
module LibteredoMd5 {
  import opened Pieces
  import opened Streaming
  import opened Md5

  const T_MASK: bv32 := 0xffffffff

  /** The 64 SET operations, in the order of the source, with its complemented constants. */
  function Script(): (ops: seq<Op>)
    ensures |ops| == 64
  {
    [E(0, 7, T_MASK ^ 0x28955b87), E(1, 12, T_MASK ^ 0x173848a9), E(2, 17, 0x242070db), E(3, 22, T_MASK ^ 0x3e423111),
     E(4, 7, T_MASK ^ 0x0a83f050), E(5, 12, 0x4787c62a), E(6, 17, T_MASK ^ 0x57cfb9ec), E(7, 22, T_MASK ^ 0x02b96afe),
     E(8, 7, 0x698098d8), E(9, 12, T_MASK ^ 0x74bb0850), E(10, 17, T_MASK ^ 0x0000a44e), E(11, 22, T_MASK ^ 0x76a32841),
     E(12, 7, 0x6b901122), E(13, 12, T_MASK ^ 0x02678e6c), E(14, 17, T_MASK ^ 0x5986bc71), E(15, 22, 0x49b40821),
     E(1, 5, T_MASK ^ 0x09e1da9d), E(6, 9, T_MASK ^ 0x3fbf4cbf), E(11, 14, 0x265e5a51), E(0, 20, T_MASK ^ 0x16493855),
     E(5, 5, T_MASK ^ 0x29d0efa2), E(10, 9, 0x02441453), E(15, 14, T_MASK ^ 0x275e197e), E(4, 20, T_MASK ^ 0x182c0437),
     E(9, 5, 0x21e1cde6), E(14, 9, T_MASK ^ 0x3cc8f829), E(3, 14, T_MASK ^ 0x0b2af278), E(8, 20, 0x455a14ed),
     E(13, 5, T_MASK ^ 0x561c16fa), E(2, 9, T_MASK ^ 0x03105c07), E(7, 14, 0x676f02d9), E(12, 20, T_MASK ^ 0x72d5b375),
     E(5, 4, T_MASK ^ 0x0005c6bd), E(8, 11, T_MASK ^ 0x788e097e), E(11, 16, 0x6d9d6122), E(14, 23, T_MASK ^ 0x021ac7f3),
     E(1, 4, T_MASK ^ 0x5b4115bb), E(4, 11, 0x4bdecfa9), E(7, 16, T_MASK ^ 0x0944b49f), E(10, 23, T_MASK ^ 0x4140438f),
     E(13, 4, 0x289b7ec6), E(0, 11, T_MASK ^ 0x155ed805), E(3, 16, T_MASK ^ 0x2b10cf7a), E(6, 23, 0x04881d05),
     E(9, 4, T_MASK ^ 0x262b2fc6), E(12, 11, T_MASK ^ 0x1924661a), E(15, 16, 0x1fa27cf8), E(2, 23, T_MASK ^ 0x3b53a99a),
     E(0, 6, T_MASK ^ 0x0bd6ddbb), E(7, 10, 0x432aff97), E(14, 15, T_MASK ^ 0x546bdc58), E(5, 21, T_MASK ^ 0x036c5fc6),
     E(12, 6, 0x655b59c3), E(3, 10, T_MASK ^ 0x70f3336d), E(10, 15, T_MASK ^ 0x00100b82), E(1, 21, T_MASK ^ 0x7a7ba22e),
     E(8, 6, 0x6fa87e4f), E(15, 10, T_MASK ^ 0x01d3191f), E(6, 15, T_MASK ^ 0x5cfebceb), E(13, 21, 0x4e0811a1),
     E(4, 6, T_MASK ^ 0x08ac817d), E(11, 10, T_MASK ^ 0x42c50dca), E(2, 15, 0x2ad7d2bb), E(9, 21, T_MASK ^ 0x14792c6e)]
  }

  lemma ScriptIsStandard()
    ensures Script() == Standard()
  {
  }

  /** SET: `t = a + f(b,c,d) + X[k] + Ti; a = ROTATE_LEFT(t, s) + b`. */
  function Set(round: nat, a: bv32, b: bv32, c: bv32, d: bv32, x: bv32, e: Op): bv32 {
    Add(Rol(Add4(a, Aux(round, b, c, d), x, e.t), e.s), b)
  }

  lemma SetIsMix(round: nat, r: Regs, x: bv32, e: Op)
    ensures Set(round, r.a, r.b, r.c, r.d, x, e) == Mix(round, r, x, e)
  {
    hide Rol, Aux, Add, Add4;
    AddCommutes(r.b, Rol(Add4(r.a, Aux(round, r.b, r.c, r.d), x, e.t), e.s));
  }

  lemma SetIsRound(i: nat, r0: Regs, x: Words, r: Regs)
    requires i < 64 && r == Rounds(i, r0, x)
    ensures var e := Script()[i];
            Rounds(i + 1, r0, x) == Regs(r.d, Set(i / 16, r.a, r.b, r.c, r.d, x[e.k], e), r.b, r.c)
  {
    hide Set, Mix, Script, Standard;
    ScriptIsStandard();
    SetIsMix(i / 16, r, x[Standard()[i].k], Standard()[i]);
  }

  /** Four operations at a time: a, then d, then c, then b is the register assigned. */
  method Process(r: Regs, block: Block) returns (q: Regs)
    ensures q == Compress(r, block)
  {
    hide Set, Mix, Script, Rounds, WordsOf, Add;
    var x: Words := WordsOf(block);
    var a, b, c, d := r.a, r.b, r.c, r.d;
    assert Rounds(0, r, x) == r by { RoundsZero(r, x); }
    var i := 0;
    while i < 64
      invariant 0 <= i <= 64 && i % 4 == 0
      invariant Regs(a, b, c, d) == Rounds(i, r, x)
    {
      var e := Script()[i];
      SetIsRound(i, r, x, Regs(a, b, c, d));
      a := Set(i / 16, a, b, c, d, x[e.k], e);
      e := Script()[i + 1];
      SetIsRound(i + 1, r, x, Regs(d, a, b, c));
      d := Set((i + 1) / 16, d, a, b, c, x[e.k], e);
      e := Script()[i + 2];
      SetIsRound(i + 2, r, x, Regs(c, d, a, b));
      c := Set((i + 2) / 16, c, d, a, b, x[e.k], e);
      e := Script()[i + 3];
      SetIsRound(i + 3, r, x, Regs(b, c, d, a));
      b := Set((i + 3) / 16, b, c, d, a, x[e.k], e);
      i := i + 4;
    }
    q := Regs(Add(r.a, a), Add(r.b, b), Add(r.c, c), Add(r.d, d));
  }

  /** `md5_state_t`.  The ghost `msg` is everything appended since `md5_init`. */
  class State {
    var count0: nat
    var count1: nat
    var abcd: Regs
    var buf: array<bv8>
    ghost var msg: Octets

    ghost predicate Valid()
      reads this, buf
    {
      && buf.Length == 64
      && count0 == LowBits(|msg|) && count1 == HighBits(|msg|)
      && Absorbed(Compress, INIT, msg, abcd, buf[..Fill(|msg|)])
    }

    /** `md5_init` */
    constructor ()
      ensures Valid() && fresh(buf) && msg == []
    {
      hide Compress;
      count0, count1 := 0, 0;
      abcd := Regs(0x67452301, T_MASK ^ 0x10325476, T_MASK ^ 0x67452301, 0x10325476);
      buf := new bv8[64](_ => 0);
      msg := [];
    }

    /** `md5_append`, for byte counts whose sum with a buffer offset is still an `int`. */
    method Append(data: Octets)
      requires Valid() && |data| < 0x7fff_ffc0
      modifies this, buf
      ensures Valid() && buf == old(buf) && msg == old(msg) + data
    {
      hide Compress, Chain, Fill, LowBits, HighBits, Absorbed;
      var offset := count0 / 8 % 64;
      BufferOffset(|msg|);
      if |data| == 0 {
        assert msg + data == msg;
        return;
      }
      AddCount(|data|);
      Absorb(data, offset);
    }

    /** The length arithmetic of `md5_append`. */
    method AddCount(nbytes: nat)
      requires count0 == LowBits(|msg|) && count1 == HighBits(|msg|) && nbytes < TWO32
      modifies this`count0, this`count1
      ensures count0 == LowBits(|msg| + nbytes) && count1 == HighBits(|msg| + nbytes)
    {
      hide LowBits, HighBits;
      CountBytes(|msg|, nbytes);
      var nbits := 8 * nbytes % TWO32;
      count1 := (count1 + nbytes / 0x2000_0000) % TWO32;
      count0 := (count0 + nbits) % TWO32;
      if count0 < nbits {
        count1 := (count1 + 1) % TWO32;
      }
    }

    /** `md5_finish`: the length is saved first, then padding and length go through `md5_append`. */
    method Finish() returns (digest: Octets)
      requires Valid()
      modifies this, buf
      ensures digest == Digest(old(msg))
    {
      hide Compress, Chain, Fill, LowBits, HighBits, Absorbed, Output, LittleOctets, Padded, PadZeros;
      ghost var m := msg;
      var data := LittleOctets(count0) + LittleOctets(count1);
      var pad: Octets := [0x80] + Zeros(63);
      var n := (55 - count0 / 8) % 64 + 1;
      PadAmount(|m|);
      assert pad[..n] == [0x80] + Zeros(n - 1);
      Append(pad[..n]);
      Append(data);
      PaddedParts(m, data, n - 1);
      AbsorbedWhole(Compress, INIT, msg, abcd, buf[..Fill(|msg|)]);
      digest := Output(abcd);
    }

    /** The block handling of `md5_append`: partial block, full blocks, remainder. */
    method Absorb(data: Octets, offset: nat)
      requires buf.Length == 64 && offset == Fill(|msg|)
      requires Absorbed(Compress, INIT, msg, abcd, buf[..offset])
      modifies this`abcd, this`msg, buf
      ensures msg == old(msg) + data
      ensures Absorbed(Compress, INIT, msg, abcd, buf[..Fill(|msg|)])
    {
      hide Compress, Chain, Fill, Absorbed;
      var p := 0;
      if offset != 0 {
        p := TopUp(data, offset);
        if offset + p < 64 {
          return;
        }
      } else {
        assert buf[..offset] == [];
        assert msg + data[..0] == msg;
      }
      assert data == data[..p] + data[p..];
      Remainder(data[p..]);
    }

    /** Fills the buffer from the front of `data`, and compresses it once it is full. */
    method TopUp(data: Octets, offset: nat) returns (copy: nat)
      requires buf.Length == 64 && 0 < offset == Fill(|msg|)
      requires Absorbed(Compress, INIT, msg, abcd, buf[..offset])
      modifies this`abcd, this`msg, buf
      ensures copy <= |data| && offset + copy <= 64
      ensures if offset + copy < 64 then copy == |data| else Fill(|msg|) == 0
      ensures msg == old(msg) + data[..copy]
      ensures Absorbed(Compress, INIT, msg, abcd, buf[..Fill(|msg|)])
    {
      hide Compress, Chain, Fill, Absorbed;
      copy := if offset + |data| > 64 then 64 - offset else |data|;
      CopyInto(buf, offset, data[..copy]);
      msg := msg + data[..copy];
      if offset + copy < 64 {
        KeepTail(Compress, INIT, old(msg), abcd, old(buf[..offset]), data[..copy]);
      } else {
        FillBlock(Compress, INIT, old(msg), abcd, old(buf[..offset]), data[..copy]);
        assert buf[..] == buf[..64];
        abcd := Process(abcd, buf[..]);
        assert buf[..0] == [];
      }
    }

    /** Compresses whole blocks of `data` and keeps what is left in the buffer. */
    method Remainder(data: Octets)
      requires buf.Length == 64 && Fill(|msg|) == 0
      requires Absorbed(Compress, INIT, msg, abcd, [])
      modifies this`abcd, this`msg, buf
      ensures msg == old(msg) + data
      ensures Absorbed(Compress, INIT, msg, abcd, buf[..Fill(|msg|)])
    {
      hide Compress, Chain, Fill, Absorbed;
      var p;
      abcd, p := FullBlocks(abcd, msg, data);
      KeepRest(Compress, INIT, msg, abcd, data, p);
      CopyInto(buf, 0, data[p..]);
      msg := msg + data;
    }
  }

  /** The loop over whole blocks, straight from the caller's buffer. */
  method FullBlocks(r: Regs, ghost head: Octets, data: Octets) returns (q: Regs, p: nat)
    requires Fill(|head|) == 0 && Absorbed(Compress, INIT, head, r, [])
    ensures p <= |data| && |data| - p < 64
    ensures Absorbed(Compress, INIT, head + data[..p], q, [])
  {
    hide Compress, Chain, Fill, Absorbed;
    q, p := r, 0;
    assert head + data[..0] == head;
    while |data| - p >= 64
      invariant p <= |data|
      invariant Absorbed(Compress, INIT, head + data[..p], q, [])
    {
      NextBlock(Compress, INIT, head, q, data, p);
      q := Process(q, data[p..p + 64]);
      p := p + 64;
    }
  }

  /** A context fed with the given parts, one append each. */
  method DigestParts(parts: seq<Octets>) returns (digest: Octets)
    requires forall c :: c in parts ==> |c| < 0x7fff_ffc0
    ensures digest == Digest(Concat(parts))
  {
    hide Digest, Compress, Chain, Fill, Absorbed;
    var s := new State();
    for i := 0 to |parts|
      invariant s.Valid() && fresh(s) && fresh(s.buf) && s.msg == Concat(parts[..i])
    {
      s.Append(parts[i]);
      ConcatSnoc(parts, i);
    }
    assert parts[..|parts|] == parts;
    digest := s.Finish();
  }

  lemma PadAmount(n: nat)
    ensures (55 - LowBits(n) / 8) % 64 == PadZeros(n)
  {
    BufferOffset(n);
    var k := LowBits(n) / 8;
    assert k == 64 * (k / 64) + n % 64;
    assert (55 - k) % 64 == (55 - n % 64) % 64;
  }

  lemma PaddedParts(m: Octets, length: Octets, zeros: nat)
    requires |length| == 8 && zeros == PadZeros(|m|)
    ensures m + ([0x80] + Zeros(zeros)) + length == Padded(m, length)
  {
  }
}

/** The implementation in aiccu/hash_md5.c: byte counts, padding and length written into the buffer. */
module AiccuMd5 {
  import opened Streaming
  import opened Md5

  /** The 64 MD5STEP operations, in the order of the source. */
  function Script(): (ops: seq<Op>)
    ensures |ops| == 64
  {
    [E(0, 7, 0xd76aa478), E(1, 12, 0xe8c7b756), E(2, 17, 0x242070db), E(3, 22, 0xc1bdceee),
     E(4, 7, 0xf57c0faf), E(5, 12, 0x4787c62a), E(6, 17, 0xa8304613), E(7, 22, 0xfd469501),
     E(8, 7, 0x698098d8), E(9, 12, 0x8b44f7af), E(10, 17, 0xffff5bb1), E(11, 22, 0x895cd7be),
     E(12, 7, 0x6b901122), E(13, 12, 0xfd987193), E(14, 17, 0xa679438e), E(15, 22, 0x49b40821),
     E(1, 5, 0xf61e2562), E(6, 9, 0xc040b340), E(11, 14, 0x265e5a51), E(0, 20, 0xe9b6c7aa),
     E(5, 5, 0xd62f105d), E(10, 9, 0x02441453), E(15, 14, 0xd8a1e681), E(4, 20, 0xe7d3fbc8),
     E(9, 5, 0x21e1cde6), E(14, 9, 0xc33707d6), E(3, 14, 0xf4d50d87), E(8, 20, 0x455a14ed),
     E(13, 5, 0xa9e3e905), E(2, 9, 0xfcefa3f8), E(7, 14, 0x676f02d9), E(12, 20, 0x8d2a4c8a),
     E(5, 4, 0xfffa3942), E(8, 11, 0x8771f681), E(11, 16, 0x6d9d6122), E(14, 23, 0xfde5380c),
     E(1, 4, 0xa4beea44), E(4, 11, 0x4bdecfa9), E(7, 16, 0xf6bb4b60), E(10, 23, 0xbebfbc70),
     E(13, 4, 0x289b7ec6), E(0, 11, 0xeaa127fa), E(3, 16, 0xd4ef3085), E(6, 23, 0x04881d05),
     E(9, 4, 0xd9d4d039), E(12, 11, 0xe6db99e5), E(15, 16, 0x1fa27cf8), E(2, 23, 0xc4ac5665),
     E(0, 6, 0xf4292244), E(7, 10, 0x432aff97), E(14, 15, 0xab9423a7), E(5, 21, 0xfc93a039),
     E(12, 6, 0x655b59c3), E(3, 10, 0x8f0ccc92), E(10, 15, 0xffeff47d), E(1, 21, 0x85845dd1),
     E(8, 6, 0x6fa87e4f), E(15, 10, 0xfe2ce6e0), E(6, 15, 0xa3014314), E(13, 21, 0x4e0811a1),
     E(4, 6, 0xf7537e82), E(11, 10, 0xbd3af235), E(2, 15, 0x2ad7d2bb), E(9, 21, 0xeb86d391)]
  }

  lemma ScriptIsStandard()
    ensures Script() == Standard()
  {
  }

  /** F1 to F4, with F1 rewritten to save an operation and F2 borrowing it. */
  function FastAux(round: nat, x: bv32, y: bv32, z: bv32): bv32 {
    if round == 0 then z ^ (x & (y ^ z))
    else if round == 1 then y ^ (z & (x ^ y))
    else if round == 2 then x ^ y ^ z
    else y ^ (x | !z)
  }

  lemma FastAuxIsAux(round: nat, x: bv32, y: bv32, z: bv32)
    ensures FastAux(round, x, y, z) == Aux(round, x, y, z)
  {
    Choose(x, y, z);
    SelectByLast(x, y, z);
  }

  lemma Choose(x: bv32, y: bv32, z: bv32)
    ensures z ^ (x & (y ^ z)) == (x & y) | (!x & z)
  {
  }

  lemma SelectByLast(x: bv32, y: bv32, z: bv32)
    ensures y ^ (z & (x ^ y)) == (x & z) | (y & !z)
  {
  }

  /** `w += f(x,y,z) + in` where `in` is itself a sum. */
  function Accumulate(w: bv32, f: bv32, x: bv32, t: bv32): bv32 {
    w + (f + (x + t))
  }

  lemma AccumulateIsAdd4(w: bv32, f: bv32, x: bv32, t: bv32)
    ensures Accumulate(w, f, x, t) == Add4(w, f, x, t)
  {
  }

  /** MD5STEP: `w += f(x,y,z) + in, w = (w<<s | w>>(32-s)) + x`, with `in` the sum of a word and a constant. */
  function Step(round: nat, w: bv32, x: bv32, y: bv32, z: bv32, word: bv32, e: Op): bv32 {
    Add(Rol(Accumulate(w, FastAux(round, x, y, z), word, e.t), e.s), x)
  }

  lemma StepIsMix(round: nat, r: Regs, x: bv32, e: Op)
    ensures Step(round, r.a, r.b, r.c, r.d, x, e) == Mix(round, r, x, e)
  {
    hide Rol, Aux, FastAux, Add, Add4, Accumulate;
    var f := Aux(round, r.b, r.c, r.d);
    FastAuxIsAux(round, r.b, r.c, r.d);
    AccumulateIsAdd4(r.a, f, x, e.t);
    AddCommutes(r.b, Rol(Add4(r.a, f, x, e.t), e.s));
  }

  lemma StepIsRound(i: nat, r0: Regs, x: Words, r: Regs)
    requires i < 64 && r == Rounds(i, r0, x)
    ensures var e := Script()[i];
            Rounds(i + 1, r0, x) ==
            Regs(r.d, Step(i / 16, r.a, r.b, r.c, r.d, x[e.k], e), r.b, r.c)
  {
    hide Step, Mix, Script, Standard;
    ScriptIsStandard();
    StepIsMix(i / 16, r, x[Standard()[i].k], Standard()[i]);
  }

  method Transform(r: Regs, block: Block) returns (q: Regs)
    ensures q == Compress(r, block)
  {
    hide Step, Mix, Script, Rounds, WordsOf, Add;
    var x: Words := WordsOf(block);
    var a, b, c, d := r.a, r.b, r.c, r.d;
    RoundsZero(r, x);
    var i := 0;
    while i < 64
      invariant 0 <= i <= 64 && i % 4 == 0
      invariant Regs(a, b, c, d) == Rounds(i, r, x)
    {
      var e := Script()[i];
      StepIsRound(i, r, x, Regs(a, b, c, d));
      a := Step(i / 16, a, b, c, d, x[e.k], e);
      e := Script()[i + 1];
      StepIsRound(i + 1, r, x, Regs(d, a, b, c));
      d := Step((i + 1) / 16, d, a, b, c, x[e.k], e);
      e := Script()[i + 2];
      StepIsRound(i + 2, r, x, Regs(c, d, a, b));
      c := Step((i + 2) / 16, c, d, a, b, x[e.k], e);
      e := Script()[i + 3];
      StepIsRound(i + 3, r, x, Regs(b, c, d, a));
      b := Step((i + 3) / 16, b, c, d, a, x[e.k], e);
      i := i + 4;
    }
    q := Regs(Add(r.a, a), Add(r.b, b), Add(r.c, c), Add(r.d, d));
  }

  // ---- The length words ----

  /** Bitwise or of two numbers. */
  function BitOr(a: nat, b: nat): nat {
    if a == 0 && b == 0 then 0
    else 2 * BitOr(a / 2, b / 2) + (if a % 2 == 1 || b % 2 == 1 then 1 else 0)
  }

  lemma {:induction false} BitOrZero(a: nat)
    ensures BitOr(a, 0) == a
  {
    if a > 0 {
      BitOrZero(a / 2);
    }
  }

  lemma BitOrDisjoint(k: nat, j: nat)
    requires j < 8
    ensures BitOr(8 * k, j) == 8 * k + j
  {
    BitOrZero(k);
    assert BitOr(2 * k, j / 4) == 2 * k + j / 4;
    assert BitOr(4 * k, j / 2) == 4 * k + j / 2;
  }

  function LowBytes(n: nat): nat { n % TWO32 }
  function HighBytes(n: nat): nat { n / TWO32 % TWO32 }

  lemma LowWord(n: nat)
    ensures 8 * LowBytes(n) % TWO32 == LowBits(n)
  {
    var q, b := n / TWO32, 8 * LowBytes(n);
    Euclid32(8 * n, 8 * q + b / TWO32, b % TWO32);
  }

  /** `bytes[1] << 3 | bytes[0] >> 29` is the high word of the bit count. */
  lemma HighWord(n: nat)
    ensures BitOr(8 * HighBytes(n) % TWO32, LowBytes(n) / 0x2000_0000) == HighBits(n)
  {
    var q, r := n / TWO32, n % TWO32;
    var j := r / 0x2000_0000;
    var k := 8 * HighBytes(n) % TWO32;
    Euclid32(8 * n, 8 * q + j, 8 * (r % 0x2000_0000));
    HighWordModulo(q, j);
    assert k == 8 * (k / 8);
    BitOrDisjoint(k / 8, j);
  }

  lemma HighWordModulo(q: nat, j: nat)
    requires j < 8
    ensures (8 * q + j) % TWO32 == 8 * (q % TWO32) % TWO32 + j
    ensures 8 * (q % TWO32) % TWO32 % 8 == 0
  {
    var p, s := q / 0x2000_0000, q % 0x2000_0000;
    Euclid32(8 * q + j, p, 8 * s + j);
    var m := q % TWO32;
    assert m == q - 0x2000_0000 * (8 * (q / TWO32));
    Euclid32(8 * m, p - 8 * (q / TWO32), 8 * s);
  }

  /** `struct MD5Context`.  The sixteen words of `in` are kept as the 64 bytes they occupy. */
  class Context {
    var bytes0: nat
    var bytes1: nat
    var regs: Regs
    var input: array<bv8>
    ghost var msg: Octets

    ghost predicate Valid()
      reads this, input
    {
      && input.Length == 64
      && bytes0 == LowBytes(|msg|) && bytes1 == HighBytes(|msg|)
      && Absorbed(Compress, INIT, msg, regs, input[..Fill(|msg|)])
    }

    /** `MD5Init` */
    constructor ()
      ensures Valid() && fresh(input) && msg == []
    {
      hide Compress;
      regs := Regs(0x67452301, 0xefcdab89, 0x98badcfe, 0x10325476);
      bytes0, bytes1 := 0, 0;
      input := new bv8[64](_ => 0);
      msg := [];
    }

    /** `MD5Update` */
    method Update(data: Octets)
      requires Valid() && |data| < TWO32
      modifies this, input
      ensures Valid() && input == old(input) && msg == old(msg) + data
    {
      hide Compress, Chain, Fill, Absorbed, LowBytes, HighBytes;
      var t := bytes0;
      AddCount(|data|);
      LowOffset(|msg|);
      t := 64 - t % 64;
      if t > |data| {
        CopyInto(input, 64 - t, data);
        KeepTail(Compress, INIT, msg, regs, old(input[..64 - t]), data);
        msg := msg + data;
      } else {
        FirstChunk(data[..t]);
        Chunks(data[t..]);
        assert data[..t] + data[t..] == data;
      }
    }

    /** The length arithmetic of `MD5Update`. */
    method AddCount(len: nat)
      requires bytes0 == LowBytes(|msg|) && bytes1 == HighBytes(|msg|) && len < TWO32
      modifies this`bytes0, this`bytes1
      ensures bytes0 == LowBytes(|msg| + len) && bytes1 == HighBytes(|msg| + len)
    {
      hide LowBytes, HighBytes;
      CountUp(|msg|, len);
      var t := bytes0;
      bytes0 := (t + len) % TWO32;
      if bytes0 < t {
        bytes1 := (bytes1 + 1) % TWO32;
      }
    }

    /** Completes the buffered block and transforms it. */
    method FirstChunk(data: Octets)
      requires input.Length == 64 && Fill(|msg|) + |data| == 64
      requires Absorbed(Compress, INIT, msg, regs, input[..Fill(|msg|)])
      modifies this`regs, this`msg, input
      ensures msg == old(msg) + data && Fill(|msg|) == 0
      ensures Absorbed(Compress, INIT, msg, regs, [])
    {
      hide Compress, Chain, Fill, Absorbed;
      CopyInto(input, 64 - |data|, data);
      FillBlock(Compress, INIT, msg, regs, old(input[..Fill(|msg|)]), data);
      assert input[..] == input[..64];
      regs := Transform(regs, input[..]);
      msg := msg + data;
    }

    /** The 64-byte loop of `MD5Update` and the copy of what remains. */
    method Chunks(data: Octets)
      requires input.Length == 64 && Fill(|msg|) == 0
      requires Absorbed(Compress, INIT, msg, regs, [])
      modifies this`regs, this`msg, input
      ensures msg == old(msg) + data
      ensures Absorbed(Compress, INIT, msg, regs, input[..Fill(|msg|)])
    {
      hide Compress, Chain, Fill, Absorbed;
      var p;
      regs, p := WholeChunks(regs, input, msg, data);
      KeepRest(Compress, INIT, msg, regs, data, p);
      CopyInto(input, 0, data[p..]);
      msg := msg + data;
    }

    /** `MD5Final` */
    method Final() returns (digest: Octets)
      requires Valid()
      modifies this, input
      ensures digest == Digest(old(msg))
    {
      hide Compress, Chain, Fill, Absorbed, LowBytes, HighBytes, LowBits, HighBits, Padded, PadZeros,
        Output, LittleOctets, BitOr;
      LowWord(|msg|);
      HighWord(|msg|);
      LowOffset(|msg|);
      ghost var length := LengthField(|msg|);
      ghost var tail, pad := Pad(bytes0 % 64, length);
      CopyInto(input, 56, LittleOctets(8 * bytes0 % TWO32));
      CopyInto(input, 60, LittleOctets(BitOr(8 * bytes1 % TWO32, bytes0 / 0x2000_0000)));
      assert input[..] == input[..64] == tail + (pad + length);
      FillBlock(Compress, INIT, msg, regs, tail, pad + length);
      regs := Transform(regs, input[..]);
      AbsorbedWhole(Compress, INIT, msg + (pad + length), regs, []);
      digest := Output(regs);
    }

    /** Pads the buffer up to byte 56, going through an extra block when fewer than eight bytes remain. */
    method Pad(count: nat, ghost length: Octets) returns (ghost tail: Octets, ghost pad: Octets)
      requires input.Length == 64 && count == Fill(|msg|) && |length| == 8
      requires Absorbed(Compress, INIT, msg, regs, input[..count])
      modifies this`regs, this`msg, input
      ensures input[..56] == tail + pad && Absorbed(Compress, INIT, msg, regs, tail)
      ensures msg + (pad + length) == Padded(old(msg), length)
    {
      hide Compress, Chain, Fill, Absorbed, Padded, PadZeros, Zeros;
      tail, pad := [], Zeros(56);
      if count > 55 {
        FirstChunk([0x80] + Zeros(63 - count));
        CopyInto(input, 0, Zeros(56));
        PaddedTwoBlocks(old(msg), length, count);
        assert input[..56] == tail + pad;
      } else {
        tail, pad := input[..count], [0x80] + Zeros(55 - count);
        CopyInto(input, count, [0x80] + Zeros(55 - count));
        PaddedOneBlock(msg, length, count);
      }
    }
  }

  /** Each whole chunk is copied into the context buffer and transformed there. */
  method WholeChunks(r: Regs, input: array<bv8>, ghost m: Octets, data: Octets) returns (q: Regs, p: nat)
    requires input.Length == 64 && Fill(|m|) == 0 && Absorbed(Compress, INIT, m, r, [])
    modifies input
    ensures p <= |data| && |data| - p < 64
    ensures Absorbed(Compress, INIT, m + data[..p], q, [])
  {
    hide Compress, Chain, Fill, Absorbed;
    q, p := r, 0;
    assert m + data[..0] == m;
    while |data| - p >= 64
      invariant p <= |data|
      invariant Absorbed(Compress, INIT, m + data[..p], q, [])
    {
      CopyInto(input, 0, data[p..p + 64]);
      assert input[..] == data[p..p + 64];
      NextBlock(Compress, INIT, m, q, data, p);
      q := Transform(q, input[..]);
      p := p + 64;
    }
  }

  lemma PaddedOneBlock(m: Octets, length: Octets, count: nat)
    requires |length| == 8 && count == Fill(|m|) <= 55
    ensures m + ([0x80] + Zeros(55 - count) + length) == Padded(m, length)
  {
    assert PadZeros(|m|) == 55 - count;
  }

  lemma PaddedTwoBlocks(m: Octets, length: Octets, count: nat)
    requires |length| == 8 && count == Fill(|m|) > 55
    ensures m + ([0x80] + Zeros(63 - count)) + (Zeros(56) + length) == Padded(m, length)
  {
    assert PadZeros(|m|) == 119 - count;
    assert Zeros(119 - count) == Zeros(63 - count) + Zeros(56);
  }

  lemma LowOffset(n: nat)
    ensures LowBytes(n) % 64 == Fill(n)
  {
    Mod64Shift(LowBytes(n), 0x400_0000 * (n / TWO32));
  }

  /** Carry from the low to the high byte count. */
  lemma CountUp(n: nat, k: nat)
    requires k < TWO32
    ensures var low := (LowBytes(n) + k) % TWO32;
            && low == LowBytes(n + k)
            && (if low < LowBytes(n) then (HighBytes(n) + 1) % TWO32 else HighBytes(n)) == HighBytes(n + k)
  {
    var q, r := n / TWO32, n % TWO32;
    var carry := if r + k >= TWO32 then 1 else 0;
    Euclid32(n + k, q + carry, r + k - TWO32 * carry);
    ModPlus(q, carry);
  }
}

/** The two implementations side by side. */
module Md5Agreement {
  import opened Pieces
  import opened Streaming
  import Md5
  import LibteredoMd5
  import AiccuMd5

  /** However a message is cut into chunks for either implementation, both give its RFC 1321 digest. */
  method DigestBoth(chunksA: seq<Octets>, chunksB: seq<Octets>) returns (a: Octets, b: Octets)
    requires forall c :: c in chunksA ==> |c| < 0x7fff_ffc0
    requires forall c :: c in chunksB ==> |c| < TWO32
    requires Concat(chunksA) == Concat(chunksB)
    ensures a == b == Md5.Digest(Concat(chunksA))
  {
    hide Md5.Digest, Md5.Compress, Chain, Fill, Absorbed;
    a := LibteredoMd5.DigestParts(chunksA);
    var c := new AiccuMd5.Context();
    for i := 0 to |chunksB|
      invariant c.Valid() && fresh(c) && fresh(c.input) && c.msg == Concat(chunksB[..i])
    {
      c.Update(chunksB[i]);
      ConcatSnoc(chunksB, i);
    }
    assert chunksB[..|chunksB|] == chunksB;
    b := c.Final();
  }
}
