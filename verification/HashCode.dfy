/**
  Hash codes and their slices:
  | bucket index (8 bits) | bucket tag (8 bits) | slot tag (16 bits) | segment index (32 bits) |
 */
module HashCode {

  const BUCKETS: nat := 64  // kNBucketInSegment
  const NSLOT: nat := 48    // kNSlotInBucket

  function Pow2(n: nat): (p: nat)
    ensures p > 0
  {
    if n == 0 then 1 else 2 * Pow2(n - 1)
  }

  function BucketIndex(code: nat): (b: nat)
    ensures b < BUCKETS
  {
    (code / 0x100_0000_0000_0000) % BUCKETS
  }

  function BucketTag(code: nat): nat {
    (code / 0x1_0000_0000_0000) % 256
  }

  function SlotTag(code: nat): nat {
    (code / 0x1_0000_0000) % 65536
  }

  /** The low `depth` bits. */
  function Low(code: nat, depth: nat): (s: nat)
    ensures s < Pow2(depth)
  {
    code % Pow2(depth)
  }

  /** Bit number `depth`, the one a split looks at. */
  predicate Bit(code: nat, depth: nat) {
    (code / Pow2(depth)) % 2 == 1
  }

  lemma {:induction false} PowSum(a: nat, b: nat)
    ensures Pow2(a + b) == Pow2(a) * Pow2(b)
  {
    if a > 0 {
      PowSum(a - 1, b);
      assert Pow2(a + b) == 2 * Pow2(a - 1 + b);
    }
  }

  /** The slices make up the code: every bit is in exactly one of them. */
  lemma SlicesAreCode(code: nat)
    requires code < 0x1_0000_0000_0000_0000
    ensures var top := code / 0x100_0000_0000_0000;
            && top < 256 && BucketIndex(code) == top % BUCKETS
            && code == ((top * 256 + BucketTag(code)) * 65536 + SlotTag(code)) * 0x1_0000_0000 + Low(code, 32)
  {
    assert Low(code, 32) == code % 0x1_0000_0000 by { Pow32(); }
    var q := code / 0x1_0000_0000;
    assert code / 0x1_0000_0000_0000 == q / 65536 && code / 0x100_0000_0000_0000 == q / 65536 / 256;
  }

  lemma Pow32()
    ensures Pow2(32) == 0x1_0000_0000
  {
    PowSum(16, 16);
    PowSum(8, 8);
    assert Pow2(8) == 256;
  }

  lemma ModMul(x: nat, a: nat, b: nat)
    requires a > 0 && b > 0
    ensures a * b > 0 && x % (a * b) == x % a + a * ((x / a) % b)
  {
    var q, r := x / a, x % a;
    var q2, r2 := q / b, q % b;
    assert x == a * q + r && q == b * q2 + r2;
    assert x == a * b * q2 + (a * r2 + r) by {
      assert a * q == a * (b * q2) + a * r2;
      assert a * (b * q2) == a * b * q2;
    }
    assert a * r2 <= a * (b - 1);
    assert a * (b - 1) == a * b - a;
    assert 0 <= a * r2 + r < a * b;
    ModUnique(x, a * b, q2, a * r2 + r);
  }

  lemma ModUnique(x: int, m: nat, q: int, r: int)
    requires m > 0 && x == m * q + r && 0 <= r < m
    ensures x / m == q && x % m == r
  {
    var d := x / m - q;
    assert x == m * (x / m) + x % m;
    assert m * d == r - x % m by { assert m * d == m * (x / m) - m * q; }
    assert d >= 1 ==> m * d >= m;
    assert d <= -1 ==> m * d <= 0 - m;
  }

  /** One more low bit. */
  lemma LowStep(code: nat, d: nat)
    ensures Low(code, d + 1) == Low(code, d) + if Bit(code, d) then Pow2(d) else 0
  {
    ModMul(code, Pow2(d), 2);
    assert Pow2(d + 1) == Pow2(d) * 2;
  }

  lemma ModMod(x: nat, m: nat, c: nat)
    requires m > 0 && c > 0
    ensures m * c > 0 && (x % (m * c)) % m == x % m
  {
    ModMul(x, m, c);
    ModUnique(x % (m * c), m, (x / m) % c, x % m);
  }

  /** Low bits of low bits. */
  lemma LowLow(code: nat, a: nat, b: nat)
    requires a <= b
    ensures Low(Low(code, b), a) == Low(code, a)
  {
    PowDivides(a, b);
    var c: nat :| Pow2(b) == Pow2(a) * c;
    assert c > 0;
    ModMod(code, Pow2(a), c);
  }

  /** Adding a higher power of two leaves the low bits. */
  lemma {:induction false} LowShift(x: nat, a: nat, b: nat)
    requires a <= b
    ensures Low(x + Pow2(b), a) == Low(x, a)
    decreases b
  {
    PowDivides(a, b);
    var c :| Pow2(b) == Pow2(a) * c;
    ModUnique(x + Pow2(b), Pow2(a), x / Pow2(a) + c, x % Pow2(a)) by {
      assert x == Pow2(a) * (x / Pow2(a)) + x % Pow2(a);
      assert Pow2(a) * (x / Pow2(a) + c) == Pow2(a) * (x / Pow2(a)) + Pow2(a) * c;
    }
  }

  lemma {:induction false} PowDivides(a: nat, b: nat)
    requires a <= b
    ensures exists c: nat :: Pow2(b) == Pow2(a) * c
    decreases b - a
  {
    if a == b {
      assert Pow2(b) == Pow2(a) * 1;
    } else {
      PowDivides(a, b - 1);
      var c: nat :| Pow2(b - 1) == Pow2(a) * c;
      assert Pow2(b) == Pow2(a) * (2 * c);
    }
  }

  lemma {:induction false} PowMono(a: nat, b: nat)
    requires a <= b
    ensures Pow2(a) <= Pow2(b)
    decreases b - a
  {
    if a < b { PowMono(a, b - 1); }
  }

  /** Agreement on b low bits implies agreement on fewer. */
  lemma LowAgree(x: nat, y: nat, a: nat, b: nat)
    requires a <= b && Low(x, b) == Low(y, b)
    ensures Low(x, a) == Low(y, a)
  {
    LowLow(x, a, b);
    LowLow(y, a, b);
  }

  lemma SmallLow(x: nat, d: nat)
    requires x < Pow2(d)
    ensures Low(x, d) == x
  {
    ModUnique(x, Pow2(d), 0, x);
  }

  /** Agreement on one more bit. */
  lemma AgreeStep(x: nat, y: nat, d: nat)
    ensures Low(x, d + 1) == Low(y, d + 1) <==> Low(x, d) == Low(y, d) && Bit(x, d) == Bit(y, d)
  {
    LowStep(x, d);
    LowStep(y, d);
  }

  /** A code's low bits seen through a directory index. */
  lemma IndexBits(code: nat, l: nat, depth: nat)
    requires l < depth
    ensures Low(Low(code, depth), l) == Low(code, l) && Bit(Low(code, depth), l) == Bit(code, l)
  {
    LowLow(code, l, depth);
    LowLow(code, l + 1, depth);
    AgreeStep(Low(code, depth), code, l);
  }

  lemma LowBelow(x: nat, d: nat)
    ensures Low(x, d) <= x
  {
    if x < Pow2(d) { ModUnique(x, Pow2(d), 0, x); }
  }

  /** Index `at` positions into part `pid` of a directory cut into parts of 2^d. */
  lemma LowInPart(d: nat, pid: nat, part: nat, at: nat)
    requires part == pid * Pow2(d) && at < Pow2(d)
    ensures Low(part + at, d) == at
  {
    ModUnique(part + at, Pow2(d), pid, at);
  }
}
