/** Data handed over in pieces: scattered buffers and chunked updates. */
module Pieces {
  function Concat<T>(parts: seq<seq<T>>): seq<T> {
    if parts == [] then [] else parts[0] + Concat(parts[1..])
  }

  lemma {:induction false} ConcatSnoc<T>(parts: seq<seq<T>>, k: nat)
    requires k < |parts|
    ensures Concat(parts[..k + 1]) == Concat(parts[..k]) + parts[k]
  {
    if k == 0 {
      assert parts[..1] == [parts[0]];
      assert Concat(parts[..1]) == parts[0] + Concat([]);
    } else {
      assert parts[1..][..k] == parts[..k + 1][1..] && parts[1..][..k - 1] == parts[..k][1..];
      ConcatSnoc(parts[1..], k - 1);
      assert parts[..k + 1][0] == parts[..k][0];
    }
  }
}
