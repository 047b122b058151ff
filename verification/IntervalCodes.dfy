/** The floating-point codes for intervals: a code is either the value itself or an exponent of three
    bits with a mantissa of `m` bits. QQIC and the IGMPv3 Max Resp Code have m = 4, the MLDv2
    Maximum Response Code has m = 12. */
module IntervalCodes {
  import opened Defs
  import opened MembershipDb

  function Pow2(n: nat): (p: nat)
    ensures p > 0
  {
    if n == 0 then 1 else 2 * Pow2(n - 1)
  }

  lemma {:induction false} Pow2Add(a: nat, b: nat)
    ensures Pow2(a + b) == Pow2(a) * Pow2(b)
  {
    if a > 0 {
      Pow2Add(a - 1, b);
    }
  }

  lemma {:induction false} Pow2Monotone(a: nat, b: nat)
    requires a <= b
    ensures Pow2(a) <= Pow2(b)
    decreases b - a
  {
    if a < b {
      Pow2Monotone(a, b - 1);
    }
  }

  // ---------------------------------------------------------------- decoding

  /** The number of codes. */
  function Codes(m: nat): nat {
    16 * Pow2(m)
  }

  function Decode(m: nat, c: nat): (v: nat) {
    var p := Pow2(m);
    if c < 8 * p then c else (c % p + p) * Pow2(if c / p >= 8 then c / p - 5 else 0)
  }

  /** Code number `e * 2^m + r` with the marker bit set. */
  lemma DecodeFloat(m: nat, e: nat, r: nat)
    requires r < Pow2(m)
    ensures Decode(m, (8 + e) * Pow2(m) + r) == (Pow2(m) + r) * Pow2(e + 3)
  {
    var p := Pow2(m);
    var c := (8 + e) * p + r;
    DivMod(8 + e, p, r);
    assert c >= 8 * p;
  }

  lemma {:induction false} MulMonotone(a: nat, b: nat, u: nat)
    requires a <= b
    ensures a * u <= b * u
  {
    assert b * u == a * u + (b - a) * u;
  }

  lemma DivMod(q: nat, p: nat, r: nat)
    requires r < p
    ensures (q * p + r) / p == q && (q * p + r) % p == r
  {
    var q', r' := Split(q * p + r, p);
    if q' < q {
      MulMonotone(q' + 1, q, p);
    } else if q < q' {
      MulMonotone(q + 1, q', p);
    }
  }

  /** The next code decodes to the next value: one unit in the last place more. */
  lemma DecodeStep(m: nat, e: nat, r: nat)
    requires r < Pow2(m)
    ensures Decode(m, (8 + e) * Pow2(m) + r + 1) == (Pow2(m) + r + 1) * Pow2(e + 3)
  {
    var p := Pow2(m);
    if r + 1 < p {
      DecodeFloat(m, e, r + 1);
    } else {
      assert (8 + e) * p + r + 1 == (8 + (e + 1)) * p + 0;
      DecodeFloat(m, e + 1, 0);
      assert Pow2(e + 4) == 2 * Pow2(e + 3);
      assert (p + r + 1) * Pow2(e + 3) == p * (2 * Pow2(e + 3));
    }
  }

  lemma Split(c: nat, p: nat) returns (q: nat, r: nat)
    requires p > 0
    ensures q == c / p && r == c % p && c == q * p + r && r < p
  {
    q, r := c / p, c % p;
  }

  lemma NextDecodesHigher(m: nat, c: nat)
    ensures Decode(m, c) < Decode(m, c + 1)
  {
    var p := Pow2(m);
    if c >= 8 * p {
      NextFloatHigher(m, c);
    } else if c + 1 == 8 * p {
      DecodeFloat(m, 0, 0);
      assert Pow2(3) == 8;
    }
  }

  lemma NextFloatHigher(m: nat, c: nat)
    requires c >= 8 * Pow2(m)
    ensures Decode(m, c) < Decode(m, c + 1)
  {
    hide Decode, Pow2;
    var p := Pow2(m);
    var q, r := Split(c, p);
    if q < 8 {
      MulMonotone(q, 7, p);
    } else {
      DecodeFloat(m, q - 8, r);
      DecodeStep(m, q - 8, r);
      assert (p + r + 1) * Pow2(q - 5) == (p + r) * Pow2(q - 5) + Pow2(q - 5);
    }
  }

  lemma {:induction false} DecodeMonotone(m: nat, c: nat, d: nat)
    requires c < d
    ensures Decode(m, c) < Decode(m, d)
    decreases d
  {
    NextDecodesHigher(m, d - 1);
    if c < d - 1 {
      DecodeMonotone(m, c, d - 1);
    }
  }

  // ---------------------------------------------------------------- the best code

  /** Code `c` decodes to the greatest representable value that does not exceed `v`. */
  ghost predicate Best(m: nat, c: nat, v: nat) {
    && c < Codes(m) && Decode(m, c) <= v
    && forall d | 0 <= d < Codes(m) && Decode(m, d) <= v :: Decode(m, d) <= Decode(m, c)
  }

  lemma BestIfBracketed(m: nat, c: nat, v: nat)
    requires c < Codes(m) && Decode(m, c) <= v && (c + 1 < Codes(m) ==> v < Decode(m, c + 1))
    ensures Best(m, c, v)
  {
    forall d | 0 <= d < Codes(m) && Decode(m, d) <= v
      ensures Decode(m, d) <= Decode(m, c)
    {
      if d > c + 1 {
        DecodeMonotone(m, c + 1, d);
      } else if d < c {
        DecodeMonotone(m, d, c);
      }
    }
  }

  lemma BestIsUnique(m: nat, c: nat, d: nat, v: nat)
    requires Best(m, c, v) && Best(m, d, v)
    ensures c == d
  {
    if c < d {
      DecodeMonotone(m, c, d);
    } else if d < c {
      DecodeMonotone(m, d, c);
    }
  }

  /** Best codes grow with the value. */
  lemma BestMonotone(m: nat, c: nat, v: nat, d: nat, w: nat)
    requires Best(m, c, v) && Best(m, d, w) && v <= w
    ensures c <= d
  {
    if d < c {
      DecodeMonotone(m, d, c);
    }
  }

  /** Every code is the best one for the value it decodes to. */
  lemma BestOfDecoded(m: nat, c: nat)
    requires c < Codes(m)
    ensures Best(m, c, Decode(m, c))
  {
  }

  // ---------------------------------------------------------------- encoding

  predicate Bit(v: nat, pos: nat) {
    (v / Pow2(pos)) % 2 == 1
  }

  /** The code for a value whose highest bit is `pos`: the three exponent bits are or-ed with the marker
      bit above them, and what does not fit is cut off. */
  function Packed(m: nat, v: nat, pos: nat): nat
    requires pos >= m + 3
  {
    var e := pos - m - 3;
    Marked(e) * Pow2(m) + (v / Pow2(pos - m)) % Pow2(m)
  }

  /** The upper four bits: the exponent with the marker bit. */
  function Marked(e: nat): (x: nat)
    ensures 8 <= x < 16 && (e < 8 ==> x == 8 + e)
  {
    8 + e % 8
  }

  /** A value whose highest bit is `pos` gets its best code as long as the exponent fits. */
  lemma PackedIsBest(m: nat, v: nat, pos: nat)
    requires m + 3 <= pos < m + 11 && Pow2(pos) <= v < Pow2(pos + 1)
    ensures Best(m, Packed(m, v, pos), v)
  {
    hide Decode, Best;
    var e := pos - m - 3;
    var p, u := Pow2(m), Pow2(e + 3);
    Pow2Add(m, e + 3);
    assert Pow2(pos + 1) == 2 * Pow2(pos);
    Pieces(v, u, p, e);
    var r := v / u - p;
    DecodeFloat(m, e, r);
    DecodeStep(m, e, r);
    BestIfBracketed(m, (8 + e) * p + r, v);
  }

  /** The mantissa of a value between p * u and 2 * p * u. */
  lemma Pieces(v: nat, u: nat, p: nat, e: nat)
    requires u > 0 && p * u <= v < 2 * (p * u) && e < 8
    ensures
      var r := v / u - p;
      && 0 <= r < p && (v / u) % p == r
      && (p + r) * u <= v < (p + r + 1) * u
      && (8 + e) * p + r < 16 * p
  {
    var q, rest := Split(v, u);
    if q < p {
      MulMonotone(q + 1, p, u);
    } else if q >= 2 * p {
      MulMonotone(2 * p, q, u);
    } else {
      DivMod(1, p, q - p);
      MulMonotone(8 + e, 15, p);
    }
  }

  lemma SmallIsBest(m: nat, v: nat)
    requires v < 8 * Pow2(m)
    ensures Best(m, v, v)
  {
    assert Decode(m, v) == v;
    BestOfDecoded(m, v);
  }

  // ---------------------------------------------------------------- the highest bit

  lemma Residue(v: nat, k: nat)
    ensures v % Pow2(k + 1) == v % Pow2(k) + if Bit(v, k) then Pow2(k) else 0
  {
    var p := Pow2(k);
    var q, r := Split(v, p);
    var half, b := Split(q, 2);
    assert v == half * (2 * p) + (b * p + r);
    MulMonotone(b, 1, p);
    DivMod(half, 2 * p, b * p + r);
  }

  /** The bits above `pos` up to `top` are clear. */
  ghost predicate ClearAbove(v: nat, pos: int, top: nat) {
    forall k: nat | pos < k <= top :: !Bit(v, k)
  }

  lemma {:induction false} ClearResidue(v: nat, pos: nat, top: nat)
    requires pos <= top && ClearAbove(v, pos, top)
    ensures v % Pow2(top + 1) == v % Pow2(pos + 1)
    decreases top
  {
    if pos < top {
      ClearResidue(v, pos, top - 1);
      Residue(v, top);
    }
  }

  /** A bit with nothing but clear bits above it bounds the value. */
  lemma HighestBit(v: nat, pos: nat, top: nat)
    requires pos <= top && ClearAbove(v, pos, top) && Bit(v, pos)
    ensures Pow2(pos) <= v % Pow2(top + 1) < Pow2(pos + 1)
  {
    ClearResidue(v, pos, top);
    Residue(v, pos);
  }

  lemma SmallResidue(v: nat, p: nat)
    requires v < p
    ensures v % p == v
  {
  }

  lemma Powers()
    ensures Pow2(4) == 16 && Pow2(7) == 128 && Pow2(10) == 1024 && Pow2(12) == 4096 && Pow2(14) == 0x4000
    ensures Pow2(15) == 0x8000 && Pow2(16) == 0x1_0000 && Pow2(18) == 0x4_0000 && Pow2(22) == 0x40_0000 && Pow2(23) == 0x80_0000
    ensures Pow2(30) == 0x4000_0000 && Pow2(31) == 0x8000_0000
  {
    assert Pow2(5) == 32 && Pow2(9) == 512 && Pow2(13) == 0x2000 && Pow2(17) == 0x2_0000 && Pow2(20) == 0x10_0000;
    assert Pow2(25) == 0x200_0000 && Pow2(28) == 0x1000_0000;
  }

  /** Above the greatest representable value only the last code is best. */
  lemma BestAtTheTop(m: nat, c: nat, v: nat)
    requires Decode(m, Codes(m) - 1) <= v
    ensures Best(m, c, v) <==> c == Codes(m) - 1
  {
    var last := Codes(m) - 1;
    BestIfBracketed(m, last, v);
    if Best(m, c, v) {
      BestIsUnique(m, c, last, v);
    }
  }

  lemma LastCode(m: nat)
    ensures Decode(m, Codes(m) - 1) == (2 * Pow2(m) - 1) * Pow2(10)
  {
    hide Decode, Pow2;
    var p := Pow2(m);
    assert Codes(m) - 1 == (8 + 7) * p + (p - 1);
    DecodeFloat(m, 7, p - 1);
  }

  // ---------------------------------------------------------------- encoders

  /** Querier's Query Interval Code. Values up to 32767 get their best code; above that only those whose
      lower 16 bits look like the greatest representable value do. */
  method QqiToQqic(sec: nat) returns (code: nat)
    ensures code < 256
    ensures sec < 0x8000 ==> Best(4, code, sec)
    ensures sec >= 0x8000 ==> (Best(4, code, sec) <==> 0x7C00 <= sec % 0x1_0000 < 0x8000)
  {
    hide Best, Decode, Pow2, Bit, Packed;
    Powers();
    if sec < 128 {
      SmallIsBest(4, sec);
      return sec;
    }
    var pos := 15;
    while pos >= 7
      invariant 6 <= pos <= 15 && ClearAbove(sec, pos, 15)
    {
      if Bit(sec, pos) {
        var exp := pos - 4;
        var mant := (sec / Pow2(exp)) % 16;
        exp := exp - 3;
        code := Marked(exp) * 16 + mant;
        QqicFound(sec, pos, code);
        return;
      }
      pos := pos - 1;
    }
    code := 0;
    ClearResidue(sec, 6, 15);
    assert Pow2(7) <= 128;
    QqicNotFound(sec);
  }

  lemma QqicFound(sec: nat, pos: nat, code: nat)
    requires 128 <= sec && 7 <= pos <= 15 && ClearAbove(sec, pos, 15) && Bit(sec, pos)
    requires code == Marked(pos - 7) * 16 + (sec / Pow2(pos - 4)) % 16
    ensures sec < 0x8000 ==> Best(4, code, sec)
    ensures sec >= 0x8000 ==> (Best(4, code, sec) <==> 0x7C00 <= sec % 0x1_0000 < 0x8000)
  {
    hide Best, Decode, Pow2, Bit;
    Powers();
    HighestBit(sec, pos, 15);
    if sec < 0x8000 {
      SmallResidue(sec, 0x1_0000);
      if pos == 15 {
        assert false;
      } else {
        PackedIsBest(4, sec, pos);
      }
    } else {
      LastCode(4);
      BestAtTheTop(4, code, sec);
      if pos < 14 {
        Pow2Monotone(pos + 1, 14);
        assert code < 255;
      } else if pos == 14 {
        TopMantissa(sec);
      }
    }
  }

  /** The four bits below bit 14 are all set. */
  lemma TopMantissa(sec: nat)
    requires 0x4000 <= sec % 0x1_0000 < 0x8000
    ensures (sec / 1024) % 16 == 15 <==> 0x7C00 <= sec % 0x1_0000
  {
    var k, w := sec / 0x1_0000, sec % 0x1_0000;
    assert sec / 1024 == 64 * k + w / 1024;
    assert w / 1024 < 32 && w / 1024 >= 16;
  }

  lemma QqicNotFound(sec: nat)
    requires 128 <= sec && sec % 0x1_0000 < 128
    ensures sec >= 0x8000 && !Best(4, 0, sec)
  {
    assert Pow2(4) == 16;
    assert Decode(4, 1) == 1;
  }

  /** The test for bit 31 looks at the sign extension of a 32-bit mask, so at all bits from 31 on. */
  predicate TestBit(v: nat, pos: nat) {
    if pos == 31 then v >= 0x8000_0000 else Bit(v, pos)
  }

  /** Maximum Response Code of MLDv2. Values below 2^23 get their best code, except 32767, which the
      threshold misses; above that only those just below 2^31 do. */
  method MaxrespiToMaxrespcMldv2(msec: nat) returns (code: nat)
    ensures code < 0x1_0000
    ensures msec < 0x80_0000 ==> (Best(12, code, msec) <==> msec != 32767)
    ensures msec == 32767 ==> code == 0
    ensures msec >= 0x80_0000 ==> (Best(12, code, msec) <==> 0x7FFC_0000 <= msec < 0x8000_0000)
  {
    hide Best, Decode, Pow2, Bit, Packed;
    Powers();
    if msec < 32767 {
      SmallIsBest(12, msec);
      return msec;
    }
    var pos := 31;
    while pos >= 15
      invariant 14 <= pos <= 31 && (pos < 31 ==> msec < 0x8000_0000 && ClearAbove(msec, pos, 30))
    {
      if TestBit(msec, pos) {
        var exp := pos - 12;
        var mant := (msec / Pow2(exp)) % 4096;
        exp := exp - 3;
        code := Marked(exp) * 4096 + mant;
        Mldv2Found(msec, pos, code);
        return;
      }
      pos := pos - 1;
    }
    code := 0;
    ClearResidue(msec, 14, 30);
    SmallResidue(msec, 0x8000_0000);
    assert msec == 32767;
    Mldv2NotFound(msec);
  }

  lemma Mldv2Found(msec: nat, pos: nat, code: nat)
    requires 15 <= pos <= 31 && TestBit(msec, pos) && (pos < 31 ==> msec < 0x8000_0000 && ClearAbove(msec, pos, 30))
    requires code == Marked(pos - 15) * 4096 + (msec / Pow2(pos - 12)) % 4096
    ensures msec != 32767
    ensures msec < 0x80_0000 ==> Best(12, code, msec)
    ensures msec >= 0x80_0000 ==> (Best(12, code, msec) <==> 0x7FFC_0000 <= msec < 0x8000_0000)
  {
    hide Best, Decode, Pow2, Bit;
    Powers();
    if pos < 31 {
      HighestBit(msec, pos, 30);
      SmallResidue(msec, 0x8000_0000);
      Pow2Monotone(15, pos);
    }
    if msec < 0x80_0000 {
      if pos >= 23 {
        Pow2Monotone(23, pos);
        assert false;
      } else {
        PackedIsBest(12, msec, pos);
      }
    } else {
      LastCode(12);
      BestAtTheTop(12, code, msec);
      if pos < 30 {
        Pow2Monotone(pos + 1, 30);
      }
      if pos < 23 {
        Pow2Monotone(pos + 1, 23);
      }
    }
  }

  lemma Mldv2NotFound(msec: nat)
    requires msec == 32767
    ensures !Best(12, 0, msec)
  {
    Powers();
    assert Decode(12, 1) == 1;
  }

  /** Max Resp Code of IGMPv3, in tenths of a second. */
  method MaxrespiToMaxrespcIgmpv3(msec: nat) returns (code: nat)
    ensures code < 256
    ensures msec < 3_276_800 ==> Best(4, code, msec / 100) && 100 * Decode(4, code) <= msec
  {
    code := QqiToQqic(msec / 100);
  }

  // ---------------------------------------------------------------- round trips

  lemma DecodedInRange(m: nat, c: nat)
    requires c < Codes(m)
    ensures Decode(m, c) <= (2 * Pow2(m) - 1) * Pow2(10)
  {
    LastCode(m);
    if c < Codes(m) - 1 {
      DecodeMonotone(m, c, Codes(m) - 1);
    }
  }

  /** Decoding a QQIC and encoding the result gives the code back. */
  method RecodeQqic(c: nat) returns (code: nat)
    requires c < 256
    ensures code == c
  {
    hide Best, Decode, Pow2;
    Powers();
    code := QqiToQqic(Decode(4, c));
    DecodedInRange(4, c);
    BestOfDecoded(4, c);
    BestIsUnique(4, code, c, Decode(4, c));
  }

  /** Decoding an MLDv2 code and encoding the result gives the code back, except exactly for 0x7FFF. */
  method RecodeMldv2(c: nat) returns (code: nat)
    requires c < 0x1_0000
    ensures code == if c == 0x7FFF then 0 else c
  {
    hide Best, Decode, Pow2;
    Powers();
    code := MaxrespiToMaxrespcMldv2(Decode(12, c));
    DecodedInRange(12, c);
    BestOfDecoded(12, c);
    SmallIsBest(12, 32767);
    if Decode(12, c) == 32767 {
      BestIsUnique(12, c, 32767, 32767);
    } else {
      BestIsUnique(12, code, c, Decode(12, c));
      assert c != 0x7FFF by {
        DecodesToItself(12, 0x7FFF);
      }
    }
    DecodesToItself(12, 0x7FFF);
  }

  lemma DecodesToItself(m: nat, c: nat)
    requires c < 8 * Pow2(m)
    ensures Decode(m, c) == c
  {
  }

  // ---------------------------------------------------------------- derived intervals

  /** The intervals a querier works with, from the settings: times in seconds, milliseconds and counts. */
  function Intervals(robustness: nat, queryInterval: nat, responseInterval: nat, llqi: nat, llqc: nat, version: Version): Config {
    var listening := robustness * queryInterval * 1000 + responseInterval;
    Config(listening, listening, llqi, llqc, version)
  }

  /** The defaults suit the querier: the Last Listener Query Time is below the listening interval. */
  lemma DefaultIntervals(version: Version)
    requires version.IsNewest()
    ensures
      var cfg := Intervals(2, 125, 10_000, 1000, 2, version);
      cfg.Ok() && cfg.mali == 260_000 && cfg.ohpi == 260_000 && cfg.llqi == 1000 && cfg.llqc == 2 && cfg.Llqt() == 2000
  {
    SpanIsProduct(2, 1000);
  }
}
