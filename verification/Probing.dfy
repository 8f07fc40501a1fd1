/** The relay's environment built from the keyed hashes: what makes connectivity tests and bubbles verifiable. */
module Probing {
  import opened Net
  import opened Packets
  import opened Security
  import opened Streaming

  /** Nonces and ping hashes of a process with this secret; its clock wraps at 32 bits. */
  function EnvOf(s: Secret, host: ByteOrder): Env {
    Env(
      e => Nonce(s, host, 0, e),
      (t: nat, src: Addr, dst: Addr) => PingHash(s, t % TWO32, src, dst),
      (n: nat, src: Addr, dst: Addr, h: Hash22) => VerifyPingHash(s, n, src, dst, h))
  }

  lemma Wraps(n: nat, t: nat)
    ensures (n - t % TWO32) % TWO32 == (n - t) % TWO32
  {
    var q := t / TWO32;
    assert t == q * TWO32 + t % TWO32;
    Multiples(n - t, q);
    assert n - t % TWO32 == n - t + q * TWO32;
  }

  lemma {:induction false} Multiples(x: int, q: nat)
    ensures (x + q * TWO32) % TWO32 == x % TWO32
  {
    if q > 0 {
      Multiples(x, q - 1);
      assert x + q * TWO32 == (x + (q - 1) * TWO32) + TWO32;
    }
  }

  /** The probe round trip.  A conforming echo reply, or an unreachable error that quotes the ping, authenticates
      the peer exactly during the thirty seconds after the ping was sent, on a clock that wraps. */
  lemma ProbeRoundTrip(s: Secret, host: ByteOrder, sent: nat, now: nat, src: Addr, dst: Addr, hops: byte, code: byte)
    ensures WellFormed(Ping(EnvOf(s, host), sent, src, dst))
    ensures var env := EnvOf(s, host);
            var ping := Ping(env, sent, src, dst);
            && (CheckPing(env, now, EchoReply(ping, hops)) <==> (now - sent) % TWO32 < 30)
            && (CheckPing(env, now, UnreachableReply(ping, hops, code)) <==> (now - sent) % TWO32 < 30)
  {
    hide PingHash, VerifyPingHash, Ping, EchoReply, UnreachableReply, CheckPing;
    AnswersAuthenticate(EnvOf(s, host), sent, now, src, dst, hops, code);
    ProbeWindow(s, sent % TWO32, now, src, dst);
    Wraps(now, sent);
  }
}
