/** The Internet checksum (section 2 of RFC 1071), in the two forms the repository has. */
module Checksum {
  import opened Net
  import opened Pieces

  /** A 16-bit load of two consecutive bytes. */
  function Load(host: ByteOrder, b0: byte, b1: byte): (w: nat)
    ensures w <= 0xffff
  {
    match host
    case LittleEndian => b0 as int + 256 * b1 as int
    case BigEndian => 256 * b0 as int + b1 as int
  }

  /** The two bytes a 16-bit store leaves in memory. */
  function Store(host: ByteOrder, w: nat): (s: Bytes)
    requires w <= 0xffff
    ensures |s| == 2 && Load(host, s[0], s[1]) == w
  {
    match host
    case LittleEndian => [w % 256, w / 256]
    case BigEndian => [w / 256, w % 256]
  }

  /** Plain sum of the 16-bit words of a string, an odd last byte padded with zero. */
  function WordSum(host: ByteOrder, s: Bytes): nat {
    if s == [] then 0
    else if |s| == 1 then Load(host, s[0], 0)
    else Load(host, s[0], s[1]) + WordSum(host, s[2..])
  }

  /** The one's complement residue: take 0xffff away while more than sixteen bits are left. */
  function Fold(n: nat): (f: nat)
    ensures f <= 0xffff && (f == 0 <==> n == 0)
  {
    if n <= 0xffff then n else Fold(n - 0xffff)
  }

  function Inet(host: ByteOrder, s: Bytes): (c: nat)
    ensures c <= 0xffff
  {
    0xffff - Fold(WordSum(host, s))
  }

  // ---- Algebra ----

  lemma {:induction false} FoldQuotient(n: nat) returns (q: nat)
    ensures n == Fold(n) + 0xffff * q
  {
    if n <= 0xffff {
      q := 0;
    } else {
      q := FoldQuotient(n - 0xffff);
      q := q + 1;
    }
  }

  /** Any number in range that differs from `n` by a multiple of 0xffff, and is zero with it, is the residue. */
  lemma FoldUnique(n: nat, f: nat, t: int)
    requires n == f + 0xffff * t && f <= 0xffff && (f == 0 <==> n == 0)
    ensures f == Fold(n)
  {
    var q := FoldQuotient(n);
    assert f - Fold(n) == 0xffff * (q - t);
  }

  lemma MultipleMod(f: int, t: int)
    ensures (f + 0xffff * t) % 0xffff == f % 0xffff
  {
  }

  /** The running sum is the word sum modulo 0xffff. */
  lemma FoldCongruent(n: nat)
    ensures Fold(n) % 0xffff == n % 0xffff
  {
    var q := FoldQuotient(n);
    MultipleMod(Fold(n), q);
  }

  lemma FoldPlus(n: nat, m: nat)
    ensures Fold(Fold(n) + m) == Fold(n + m)
  {
    var q := FoldQuotient(n);
    var p := FoldQuotient(Fold(n) + m);
    FoldUnique(n + m, Fold(Fold(n) + m), p + q);
  }

  lemma {:induction false} WordSumAppend(host: ByteOrder, s: Bytes, t: Bytes)
    requires |s| % 2 == 0
    ensures WordSum(host, s + t) == WordSum(host, s) + WordSum(host, t)
  {
    if s == [] {
      assert s + t == t;
    } else {
      assert (s + t)[2..] == s[2..] + t;
      WordSumAppend(host, s[2..], t);
    }
  }

  // ---- Scatter-gather form with an early fold ----

  /** The words summed so far: the bytes read, less the one still waiting for its partner. */
  ghost function Paired(seen: Bytes): Bytes {
    seen[..|seen| - |seen| % 2]
  }

  /** Adding one word with an end-around carry, as the loop does. */
  function EndAround(sum: nat, w: nat): nat {
    if sum + w > 0xffff then sum + w - 0xffff else sum + w
  }

  lemma EndAroundFold(n: nat, w: nat)
    requires w <= 0xffff
    ensures EndAround(Fold(n), w) == Fold(n + w)
  {
    var q := FoldQuotient(n);
    FoldUnique(n + w, EndAround(Fold(n), w), if Fold(n) + w > 0xffff then q + 1 else q);
  }

  lemma AddPair(host: ByteOrder, s: Bytes, b0: byte, b1: byte)
    requires |s| % 2 == 0
    ensures EndAround(Fold(WordSum(host, s)), Load(host, b0, b1)) == Fold(WordSum(host, s + [b0, b1]))
  {
    WordSumAppend(host, s, [b0, b1]);
    assert [b0, b1][2..] == [];
    EndAroundFold(WordSum(host, s), Load(host, b0, b1));
  }

  lemma AddTail(host: ByteOrder, s: Bytes, b0: byte)
    requires |s| % 2 == 0
    ensures EndAround(Fold(WordSum(host, s)), Load(host, b0, 0)) == Fold(WordSum(host, s + [b0]))
  {
    WordSumAppend(host, s, [b0]);
    EndAroundFold(WordSum(host, s), Load(host, b0, 0));
  }

  /** What the loop variables hold once `seen` has been read. */
  ghost predicate Summed(host: ByteOrder, seen: Bytes, sum: nat, odd: bool, w0: byte) {
    && sum == Fold(WordSum(host, Paired(seen)))
    && odd == (|seen| % 2 == 1)
    && (odd ==> w0 == seen[|seen| - 1])
  }

  lemma SummedNext(host: ByteOrder, seen: Bytes, sum: nat, odd: bool, w0: byte, b: byte)
    requires Summed(host, seen, sum, odd, w0)
    ensures if odd then Summed(host, seen + [b], EndAround(sum, Load(host, w0, b)), false, w0)
            else Summed(host, seen + [b], sum, true, b)
  {
    if odd {
      assert Paired(seen + [b]) == Paired(seen) + [w0, b];
      AddPair(host, Paired(seen), w0, b);
    } else {
      assert Paired(seen + [b]) == Paired(seen);
    }
  }

  lemma SummedAll(host: ByteOrder, seen: Bytes, sum: nat, odd: bool, w0: byte)
    requires Summed(host, seen, sum, odd, w0)
    ensures (if odd then EndAround(sum, Load(host, w0, 0)) else sum) == Fold(WordSum(host, seen))
  {
    if odd {
      assert seen == Paired(seen) + [w0];
      AddTail(host, Paired(seen), w0);
    } else {
      assert Paired(seen) == seen;
    }
  }

  method InCksum(host: ByteOrder, iov: seq<Bytes>) returns (c: nat)
    ensures c == Inet(host, Concat(iov))
  {
    var sum: nat, odd, w0: byte := 0, false, 0;
    ghost var seen: Bytes := [];
    var n := 0;
    while n < |iov|
      invariant n <= |iov| && seen == Concat(iov[..n])
      invariant Summed(host, seen, sum, odd, w0)
    {
      var j := 0;
      ghost var before := seen;
      while j < |iov[n]|
        invariant j <= |iov[n]| && seen == before + iov[n][..j]
        invariant Summed(host, seen, sum, odd, w0)
      {
        var b := iov[n][j];
        SummedNext(host, seen, sum, odd, w0, b);
        if odd {
          sum := EndAround(sum, Load(host, w0, b));
        } else {
          w0 := b;
        }
        odd := !odd;
        seen := seen + [b];
        j := j + 1;
      }
      ConcatSnoc(iov, n);
      assert iov[n][..j] == iov[n];
      n := n + 1;
    }
    assert iov[..n] == iov;
    SummedAll(host, seen, sum, odd, w0);
    if odd {
      sum := EndAround(sum, Load(host, w0, 0));
    }
    c := 0xffff - sum;                                   // sum ^ 0xffff
  }

  // ---- Byte order independence ----

  function OddBytes(s: Bytes): nat {
    if |s| < 2 then 0 else s[1] as nat + OddBytes(s[2..])
  }

  lemma {:induction false} SwappedSums(s: Bytes)
    ensures 256 * WordSum(LittleEndian, s) == WordSum(BigEndian, s) + 0xffff * OddBytes(s)
    ensures WordSum(LittleEndian, s) == 0 <==> WordSum(BigEndian, s) == 0
  {
    if |s| >= 2 {
      SwappedSums(s[2..]);
    }
  }

  function Swapped(f: nat): nat {
    256 * (f % 256) + f / 256
  }

  lemma SwappedFold(le: nat, be: nat, k: nat)
    requires 256 * le == be + 0xffff * k && (le == 0 <==> be == 0)
    ensures Fold(be) == Swapped(Fold(le))
  {
    var f := Fold(le);
    var q := FoldQuotient(le);
    assert 256 * f == Swapped(f) + 0xffff * (f / 256);
    FoldUnique(be, Swapped(f), f / 256 + 256 * q - k);
  }

  /** The checksum lands in memory as the same two bytes whatever the host byte order. */
  lemma ByteOrderIndependence(s: Bytes)
    ensures Store(LittleEndian, Inet(LittleEndian, s)) == Store(BigEndian, Inet(BigEndian, s))
  {
    hide WordSum, Fold, OddBytes;
    var le, be := Fold(WordSum(LittleEndian, s)), Fold(WordSum(BigEndian, s));
    assert be == Swapped(le) by {
      SwappedSums(s);
      SwappedFold(WordSum(LittleEndian, s), WordSum(BigEndian, s), OddBytes(s));
    }
    var hi, lo := le / 256, le % 256;
    assert 0xffff - le == 256 * (255 - hi) + (255 - lo);
    assert 0xffff - be == 256 * (255 - lo) + (255 - hi);
  }

  // ---- Receiver side ----

  /** Storing the checksum in a zeroed word at an even offset makes the total check to zero. */
  lemma ChecksumVerifies(host: ByteOrder, head: Bytes, tail: Bytes)
    requires |head| % 2 == 0
    ensures var c := Inet(host, head + [0, 0] + tail);
            Inet(host, head + Store(host, c) + tail) == 0
  {
    var c := Inet(host, head + [0, 0] + tail);
    var field := Store(host, c);
    forall w: Bytes | |w| == 2
      ensures WordSum(host, head + w + tail)
           == WordSum(host, head) + Load(host, w[0], w[1]) + WordSum(host, tail)
    {
      WordSumAppend(host, head + w, tail);
      WordSumAppend(host, head, w);
      assert w[2..] == [];
    }
    var total := WordSum(host, head + [0, 0] + tail);
    assert WordSum(host, head + field + tail) == total + c;
    FoldPlus(total, c);
    assert Fold(total) + c == 0xffff;
  }

  // ---- IPv6 pseudo-header ----

  /** The upper-layer checksum input of section 8.1 of RFC 8200. */
  function Pseudo(src: Bytes, dst: Bytes, protocol: byte, data: Bytes): Bytes
    requires |data| < 0x1_0000_0000
  {
    src + dst + Bytes32(ToW32(|data|)) + [0, 0, 0, protocol] + data
  }

  /** `teredo_cksum`: three leading buffers, then the caller's. */
  method TeredoCksum(host: ByteOrder, src: Bytes, dst: Bytes, protocol: byte, data: seq<Bytes>) returns (c: nat)
    requires |Concat(data)| < 0x1_0000_0000
    ensures c == Inet(host, Pseudo(src, dst, protocol, Concat(data)))
  {
    var plen, i := 0, 0;
    while i < |data|
      invariant i <= |data| && plen == |Concat(data[..i])|
    {
      ConcatSnoc(data, i);
      plen := plen + |data[i]|;
      i := i + 1;
    }
    assert data[..i] == data;
    var pseudo := Bytes32(ToW32(plen)) + [0, 0, 0, protocol];
    ConcatThree(src, dst, pseudo, data);
    c := InCksum(host, [src, dst, pseudo] + data);
    assert src + (dst + (pseudo + Concat(data))) == Pseudo(src, dst, protocol, Concat(data));
  }

  lemma ConcatThree(a: Bytes, b: Bytes, c: Bytes, more: seq<Bytes>)
    ensures Concat([a, b, c] + more) == a + (b + (c + Concat(more)))
  {
    assert ([a, b, c] + more)[1..] == [b, c] + more;
    assert ([b, c] + more)[1..] == [c] + more;
    assert ([c] + more)[1..] == more;
    assert Concat([c] + more) == c + Concat(more);
    assert Concat([b, c] + more) == b + Concat([c] + more);
  }

  // ---- Late fold form ----

  /** One pass of adding the carries back in. */
  lemma CarryStep(n: nat)
    requires n > 0xffff
    ensures n % 0x10000 + n / 0x10000 < n
    ensures Fold(n % 0x10000 + n / 0x10000) == Fold(n)
  {
    var q, r := n / 0x10000, n % 0x10000;
    var p := FoldQuotient(r + q);
    FoldUnique(n, Fold(r + q), p + q);
  }

  /** The accumulator of `inchksum`, a `long` of 32 bits where the function is built, holds the sum of this many
      bytes; `ipv6_checksum` passes a 16-bit length. */
  const ACCUMULATED := 0x10001

  method InChkSum(data: Bytes) returns (r: nat)
    requires |data| <= ACCUMULATED
    ensures r == Fold(WordSum(LittleEndian, data))
  {
    var sum: nat, i := 0, 0;
    while |data| - i >= 2
      invariant i <= |data| && i % 2 == 0 && sum == WordSum(LittleEndian, data[..i])
      invariant sum <= 0xffff * (i / 2)
    {
      assert data[..i + 2] == data[..i] + [data[i], data[i + 1]];
      WordSumAppend(LittleEndian, data[..i], [data[i], data[i + 1]]);
      assert [data[i], data[i + 1]][2..] == [];
      sum := sum + Load(LittleEndian, data[i], data[i + 1]);
      i := i + 2;
    }
    if i < |data| {
      assert data == data[..i] + [data[i]];
      WordSumAppend(LittleEndian, data[..i], [data[i]]);
      sum := sum + data[i];
    } else {
      assert data[..i] == data;
    }
    assert sum <= 0x7fff_ffff;
    while sum > 0xffff                                   // sum >> 16 != 0
      invariant Fold(sum) == Fold(WordSum(LittleEndian, data))
      decreases sum
    {
      CarryStep(sum);
      sum := sum % 0x10000 + sum / 0x10000;
    }
    r := sum;
  }

  /** A length below 2^16 written on four bytes is two zero bytes and the same length on two. */
  lemma ShortLength(n: nat)
    requires n < 0x10000
    ensures Bytes32(ToW32(n)) == [0, 0] + Bytes16(ToW16(n))
  {
  }

  lemma LeadingZeros(t: Bytes)
    ensures WordSum(LittleEndian, [0, 0] + t) == WordSum(LittleEndian, t)
  {
    var zeros: Bytes := [0, 0];
    WordSumAppend(LittleEndian, zeros, t);
    assert zeros[2..] == [];
  }

  lemma WordSumThree(a: Bytes, b: Bytes, c: Bytes)
    requires |a| % 2 == 0 && |b| % 2 == 0
    ensures WordSum(LittleEndian, a + b + c)
         == WordSum(LittleEndian, a) + WordSum(LittleEndian, b) + WordSum(LittleEndian, c)
  {
    WordSumAppend(LittleEndian, a, b);
    WordSumAppend(LittleEndian, a + b, c);
  }

  lemma SplitPseudo(addrs: Bytes, len: Bytes, tail: Bytes, data: Bytes)
    requires |addrs| == 32 && |len| == 2 && |tail| == 4
    ensures Fold(WordSum(LittleEndian, addrs + ([0, 0] + len) + tail + data))
         == Fold(Fold(WordSum(LittleEndian, addrs)) + Fold(WordSum(LittleEndian, len + tail))
                 + Fold(WordSum(LittleEndian, data)))
  {
    var short := len + tail;
    assert addrs + ([0, 0] + len) + tail + data == addrs + ([0, 0] + short) + data;
    LeadingZeros(short);
    WordSumThree(addrs, [0, 0] + short, data);
    FoldSum3(WordSum(LittleEndian, addrs), WordSum(LittleEndian, short), WordSum(LittleEndian, data));
  }

  lemma FoldSum3(x: nat, y: nat, z: nat)
    ensures Fold(Fold(x) + Fold(y) + Fold(z)) == Fold(x + y + z)
  {
    FoldPlus(x, Fold(y) + Fold(z));
    FoldPlus(y, x + Fold(z));
    FoldPlus(z, x + y);
  }

  /** The two carry additions after which only sixteen bits are kept. */
  lemma TwoCarries(sum: nat)
    requires sum <= 3 * 0xffff
    ensures var once := sum / 0x10000 + sum % 0x10000;
            (once + once / 0x10000) % 0x10000 == Fold(sum)
  {
    var once := sum / 0x10000 + sum % 0x10000;
    assert sum / 0x10000 <= 2 && once <= 0x10001;
    assert Fold(once) == Fold(sum) by {
      if sum > 0xffff { CarryStep(sum); }
    }
    assert (once + once / 0x10000) % 0x10000 == if once <= 0xffff then once else once - 0xffff;
  }

  /** The end of `ipv6_checksum`: wrap the carries in, complement, and never transmit zero. */
  method WrapAndComplement(sum: nat) returns (c: nat)
    requires sum <= 3 * 0xffff
    ensures c == if Fold(sum) == 0xffff then 0xffff else 0xffff - Fold(sum)
  {
    TwoCarries(sum);
    var chksum := sum / 0x10000 + sum % 0x10000;
    chksum := chksum + chksum / 0x10000;
    c := 0xffff - chksum % 0x10000;                      // (uint16_t) ~chksum
    if c == 0 {
      c := 0xffff;
    }
  }

  /** aiccu folds each part once at the end; it agrees with the early fold except that 0 becomes 0xffff. */
  method Ipv6Checksum(src: Bytes, dst: Bytes, protocol: byte, data: Bytes) returns (c: nat)
    requires |src| == 16 && |dst| == 16 && |data| < 0x10000
    ensures var inet := Inet(LittleEndian, Pseudo(src, dst, protocol, data));
            c == if inet == 0 then 0xffff else inet
  {
    var len := Bytes16(ToW16(|data|));
    var sum := InChkSum(src + dst);
    var more := InChkSum(len + [0, 0, 0, protocol]);
    sum := sum + more;
    more := InChkSum(data);
    sum := sum + more;
    c := WrapAndComplement(sum);
    SplitPseudo(src + dst, len, [0, 0, 0, protocol], data);
    ShortLength(|data|);
  }
}
