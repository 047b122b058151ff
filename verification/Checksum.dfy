/** The Internet checksum of the packets that queries are sent in. */
module Checksum {

  newtype byte = x: int | 0 <= x < 256

  const MASK := 0xFFFF

  function Word(lo: byte, hi: byte): (w: nat)
    ensures w <= MASK
  {
    lo as int + 256 * hi as int
  }

  /** The 16-bit words of a buffer in memory order, low byte first; an odd last byte is a word of its own. */
  function Words(buf: seq<byte>): (ws: seq<nat>)
    ensures |ws| == (|buf| + 1) / 2
    ensures forall i | 0 <= i < |buf| / 2 :: ws[i] == Word(buf[2 * i], buf[2 * i + 1])
    ensures |buf| % 2 == 1 ==> ws[|buf| / 2] == Word(buf[|buf| - 1], 0)
    ensures forall i | 0 <= i < |ws| :: ws[i] <= MASK
  {
    seq((|buf| + 1) / 2, i requires 0 <= i < (|buf| + 1) / 2 =>
      if 2 * i + 1 < |buf| then Word(buf[2 * i], buf[2 * i + 1]) else Word(buf[2 * i], 0))
  }

  function Sum(ws: seq<nat>): nat {
    if ws == [] then 0 else Sum(ws[..|ws| - 1]) + ws[|ws| - 1]
  }

  /** One's-complement addition: a carry out of the top goes back in at the bottom. */
  function AddCarry(x: nat, y: nat): (z: nat)
    requires x <= MASK && y <= MASK
    ensures z <= MASK
  {
    if x + y <= MASK then x + y else x + y - MASK
  }

  /** The one's-complement sum of section 1 of RFC 1071. */
  function OnesSum(ws: seq<nat>): (s: nat)
    requires forall i | 0 <= i < |ws| :: ws[i] <= MASK
    ensures s <= MASK
  {
    if ws == [] then 0 else AddCarry(OnesSum(ws[..|ws| - 1]), ws[|ws| - 1])
  }

  /** The one's-complement sum is the plain sum up to multiples of 0xFFFF, and zero only for zero. */
  lemma {:induction false} OnesSumIsRemainder(ws: seq<nat>) returns (q: nat)
    requires forall i | 0 <= i < |ws| :: ws[i] <= MASK
    ensures Sum(ws) == OnesSum(ws) + q * MASK
    ensures OnesSum(ws) == 0 <==> Sum(ws) == 0
  {
    q := 0;
    if ws != [] {
      var front, last := ws[..|ws| - 1], ws[|ws| - 1];
      var q' := OnesSumIsRemainder(front);
      q := if OnesSum(front) + last <= MASK then q' else q' + 1;
    }
  }

  /** Representatives of the same class that are zero together are equal. */
  lemma SameRepresentative(x: nat, y: nat, p: int, sum: nat)
    requires x <= MASK && y <= MASK && x == y + p * MASK
    requires (x == 0 <==> sum == 0) && (y == 0 <==> sum == 0)
    ensures x == y
  {
    if p >= 2 || p <= -2 {
      assert false;
    }
  }

  lemma {:induction false} SumBound(ws: seq<nat>)
    requires forall i | 0 <= i < |ws| :: ws[i] <= MASK
    ensures Sum(ws) <= |ws| * MASK
  {
    if ws != [] {
      SumBound(ws[..|ws| - 1]);
    }
  }

  /** The checksum: the complement of the one's-complement sum. For buffers of up to 65535 bytes the
      32-bit accumulator does not overflow and folding twice takes all carries in. */
  method CalcChecksum(buf: seq<byte>) returns (csum: nat)
    requires |buf| <= 65535
    ensures csum == MASK - OnesSum(Words(buf))
  {
    hide Words, OnesSum;
    ghost var ws := Words(buf);
    var sum := 0;
    for i := 0 to |buf| / 2
      invariant 0 <= sum == Sum(ws[..i]) <= i * MASK
    {
      assert ws[..i + 1][..i] == ws[..i];
      sum := sum + Word(buf[2 * i], buf[2 * i + 1]);
    }
    if |buf| % 2 == 1 {
      assert ws[..|ws| - 1] == ws[..|buf| / 2];
      sum := sum + buf[|buf| - 1] as int;
    } else {
      assert ws[..|buf| / 2] == ws;
    }
    assert sum == Sum(ws) && sum < 0x8000_0000;
    ghost var total := sum;
    var low := sum % 0x1_0000;
    sum := sum / 0x1_0000;
    sum := sum + low;
    ghost var high := total / 0x1_0000;
    assert total == sum + high * MASK;
    assert sum <= 0x7FFF + MASK;
    ghost var once := sum;
    sum := sum + sum / 0x1_0000;
    csum := MASK - sum % 0x1_0000;
    FoldedTwice(ws, total, high, once);
  }

  lemma FoldedTwice(ws: seq<nat>, total: nat, high: nat, once: nat)
    requires forall i | 0 <= i < |ws| :: ws[i] <= MASK
    requires total == Sum(ws) == once + high * MASK && once <= 0x7FFF + MASK && (once == 0 <==> total == 0)
    ensures (once + once / 0x1_0000) % 0x1_0000 == OnesSum(ws)
  {
    var q := OnesSumIsRemainder(ws);
    var twice := (once + once / 0x1_0000) % 0x1_0000;
    if once >= 0x1_0000 {
      assert once / 0x1_0000 == 1;
      assert twice == once - MASK;
      SameRepresentative(twice, OnesSum(ws), q - high - 1, total);
    } else {
      assert twice == once;
      SameRepresentative(twice, OnesSum(ws), q - high, total);
    }
  }

  /** The buffer with `csum` stored in the two bytes from `k` on. */
  function Stored(buf: seq<byte>, k: nat, csum: nat): (r: seq<byte>)
    requires k + 1 < |buf| && csum <= MASK
    ensures |r| == |buf|
  {
    buf[k := (csum % 256) as byte][k + 1 := (csum / 256) as byte]
  }

  lemma {:induction false} SumUpdated(ws: seq<nat>, j: nat, w: nat)
    requires j < |ws| && ws[j] == 0
    ensures Sum(ws[j := w]) == Sum(ws) + w
  {
    var front := ws[..|ws| - 1];
    if j < |ws| - 1 {
      SumUpdated(front, j, w);
      assert ws[j := w][..|ws| - 1] == front[j := w];
    } else {
      assert ws[j := w][..|ws| - 1] == front;
    }
  }

  lemma WordsStored(buf: seq<byte>, k: nat, csum: nat)
    requires k % 2 == 0 && k + 1 < |buf| && csum <= MASK
    ensures Words(Stored(buf, k, csum)) == Words(buf)[k / 2 := csum]
  {
    var ws, ws' := Words(buf), Words(Stored(buf, k, csum));
    forall i | 0 <= i < |ws|
      ensures ws'[i] == ws[k / 2 := csum][i]
    {
      if i == k / 2 {
        assert ws'[i] == csum % 256 + 256 * (csum / 256);
      }
    }
  }

  /** What a receiver checks: with the checksum stored in its zeroed, aligned field, the one's-complement
      sum over the whole buffer is 0xFFFF. */
  lemma ChecksumSound(buf: seq<byte>, k: nat)
    requires k % 2 == 0 && k + 1 < |buf| && buf[k] == 0 && buf[k + 1] == 0
    ensures OnesSum(Words(Stored(buf, k, MASK - OnesSum(Words(buf))))) == MASK
  {
    hide Words, OnesSum, Sum;
    var ws := Words(buf);
    var csum := MASK - OnesSum(ws);
    var ws' := Words(Stored(buf, k, csum));
    assert ws[k / 2] == Word(buf[k], buf[k + 1]) == 0;
    WordsStored(buf, k, csum);
    SumUpdated(ws, k / 2, csum);
    var q := OnesSumIsRemainder(ws);
    var q' := OnesSumIsRemainder(ws');
    assert OnesSum(ws') == MASK + (q - q') * MASK;
    SameRepresentative(OnesSum(ws'), MASK, q - q', 1);
  }
}
