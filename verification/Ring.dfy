/** Ring buffers: `head` is where the next byte goes in, `tail` where the next one comes out. */
module Ring {
  import opened Bits

  predicate IsRing(buf: seq<byte>, head: nat, tail: nat) {
    |buf| >= 2 && head < |buf| && tail < |buf|
  }

  /** The index after i. */
  function Next(n: nat, i: nat): nat { if i + 1 == n then 0 else i + 1 }

  /** The index step as the code writes it, `(i + 1) & (SIZE - 1)`, for a power of two. */
  lemma MaskIsNext(k: nat, i: nat)
    requires i < Pow2(k)
    ensures And(i + 1, Pow2(k) - 1) == Next(Pow2(k), i)
  {
    AndMask(i + 1, k);
    if i + 1 < Pow2(k) { DivUnique(i + 1, Pow2(k), 0, i + 1); } else { DivUnique(i + 1, Pow2(k), 1, 0); }
  }

  function Contents(buf: seq<byte>, head: nat, tail: nat): seq<byte>
    requires IsRing(buf, head, tail)
  {
    if tail <= head then buf[tail..head] else buf[tail..] + buf[..head]
  }

  lemma ContentsLength(buf: seq<byte>, head: nat, tail: nat)
    requires IsRing(buf, head, tail)
    ensures |Contents(buf, head, tail)| < |buf|
    ensures Contents(buf, head, tail) == [] <==> head == tail
    ensures |Contents(buf, head, tail)| == |buf| - 1 <==> Next(|buf|, head) == tail
  {
  }

  /** Storing at the head of a ring that is not full appends, and moves nothing else. */
  lemma Push(buf: seq<byte>, head: nat, tail: nat, c: byte)
    requires IsRing(buf, head, tail) && Next(|buf|, head) != tail
    ensures Contents(buf[head := c], head, tail) == Contents(buf, head, tail)
    ensures Contents(buf[head := c], Next(|buf|, head), tail) == Contents(buf, head, tail) + [c]
  {
  }

  /** Advancing the tail of a ring that is not empty takes the first byte. */
  lemma Pop(buf: seq<byte>, head: nat, tail: nat)
    requires IsRing(buf, head, tail) && head != tail
    ensures Contents(buf, head, tail) == [buf[tail]] + Contents(buf, head, Next(|buf|, tail))
  {
    if tail < head {
      assert buf[tail..head] == [buf[tail]] + buf[tail + 1..head];
    } else if tail + 1 == |buf| {
      assert buf[tail..] == [buf[tail]];
    } else {
      assert buf[tail..] == [buf[tail]] + buf[tail + 1..];
      assert [buf[tail]] + buf[tail + 1..] + buf[..head] == [buf[tail]] + (buf[tail + 1..] + buf[..head]);
    }
  }
}
