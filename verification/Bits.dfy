/** Unsigned machine words and the bit operators of C++ on them, over the naturals. */
module Bits {
  type byte = n: int | 0 <= n < 0x100
  type u16 = n: int | 0 <= n < 0x1_0000

  function Or(a: nat, b: nat): nat {
    if a == 0 then b
    else if b == 0 then a
    else 2 * Or(a / 2, b / 2) + (if a % 2 == 1 || b % 2 == 1 then 1 else 0)
  }

  function And(a: nat, b: nat): nat {
    if a == 0 || b == 0 then 0
    else 2 * And(a / 2, b / 2) + (if a % 2 == 1 && b % 2 == 1 then 1 else 0)
  }

  function Shl(a: nat, n: nat): nat {
    if n == 0 then a else 2 * Shl(a, n - 1)
  }

  function Shr(a: nat, n: nat): nat {
    if n == 0 then a else Shr(a / 2, n - 1)
  }

  ghost function Pow2(n: nat): (p: nat)
    ensures p > 0
  {
    if n == 0 then 1 else 2 * Pow2(n - 1)
  }

  /** Bits that do not overlap are or-ed by adding. */
  lemma {:induction false} OrDisjoint(a: nat, b: nat, s: nat)
    requires a < Pow2(s)
    ensures Or(a, Shl(b, s)) == Or(Shl(b, s), a) == a + Shl(b, s)
  {
    if s > 0 {
      OrDisjoint(a / 2, b, s - 1);
      assert Shl(b, s) / 2 == Shl(b, s - 1);
    } else {
      assert a == 0;
    }
  }

  /** The low s bits of a. */
  ghost function Low(a: nat, s: nat): nat {
    if s == 0 then 0 else 2 * Low(a / 2, s - 1) + a % 2
  }

  /** Masking with s ones keeps the low s bits. */
  lemma {:induction false} AndMask(a: nat, s: nat)
    ensures And(a, Pow2(s) - 1) == Low(a, s)
  {
    if s > 0 {
      AndMask(a / 2, s - 1);
      var m := Pow2(s) - 1;
      assert m / 2 == Pow2(s - 1) - 1 && m % 2 == 1;
      if a == 0 {
        LowZero(s);
      }
    }
  }

  lemma {:induction false} LowZero(s: nat)
    ensures Low(0, s) == 0
  {
    if s > 0 {
      LowZero(s - 1);
    }
  }

  /** A mask shifted up selects from the operand shifted down. */
  lemma {:induction false} AndShift(a: nat, m: nat, s: nat)
    ensures And(a, Shl(m, s)) == Shl(And(Shr(a, s), m), s)
  {
    if s > 0 {
      AndShift(a / 2, m, s - 1);
      assert Shl(m, s) / 2 == Shl(m, s - 1);
      ShlZero(s);
      AndZero(Shr(a, s));
    }
  }

  lemma {:induction false} ShlZero(s: nat)
    ensures Shl(0, s) == 0
  {
    if s > 0 {
      ShlZero(s - 1);
    }
  }

  lemma {:induction false} AndZero(a: nat)
    ensures And(a, 0) == 0 == And(0, a)
  {
  }

  lemma {:induction false} ShrInverse(a: nat, s: nat)
    ensures Shr(Shl(a, s), s) == a
  {
    if s > 0 {
      ShrInverse(a, s - 1);
    }
  }

  lemma {:induction false} OrHalf(a: nat, b: nat)
    ensures Or(a, b) / 2 == Or(a / 2, b / 2)
    ensures Or(a, b) % 2 == if a % 2 == 1 || b % 2 == 1 then 1 else 0
  {
  }

  /** Or-ing a field of w bits into the gap left for it at position s. */
  lemma {:induction false} OrInsert(low: nat, q: nat, high: nat, w: nat, s: nat)
    requires low < Pow2(s) && q < Pow2(w)
    ensures Or(Shl(high, s + w) + low, Shl(q, s)) == Shl(high, s + w) + Shl(q, s) + low
  {
    hide Or;
    if s == 0 {
      OrDisjoint(q, high, w);
    } else {
      OrInsert(low / 2, q, high, w, s - 1);
      OrHalf(Shl(high, s + w) + low, Shl(q, s));
      assert (Shl(high, s + w) + low) / 2 == Shl(high, s - 1 + w) + low / 2;
      assert Shl(q, s) / 2 == Shl(q, s - 1);
    }
  }

  lemma OrZero(a: nat)
    ensures Or(a, 0) == a == Or(0, a)
  {
  }

  /** Or-ing two words or-s each of their fields. */
  lemma {:induction false} OrField(a: nat, b: nat, w: nat, s: nat)
    ensures Low(Shr(Or(a, b), s), w) == Or(Low(Shr(a, s), w), Low(Shr(b, s), w))
    decreases s, w
  {
    hide Or;
    OrHalf(a, b);
    if s > 0 {
      OrField(a / 2, b / 2, w, s - 1);
    } else if w > 0 {
      OrField(a / 2, b / 2, w - 1, 0);
      OrHalf(Low(a, w), Low(b, w));
    } else {
      OrZero(0);
    }
  }

  lemma {:induction false} ShlAdd(a: nat, m: nat, n: nat)
    ensures Shl(Shl(a, m), n) == Shl(a, m + n)
  {
    if n > 0 {
      ShlAdd(a, m, n - 1);
    }
  }

  lemma {:induction false} ShlIsMul(a: nat, s: nat)
    ensures Shl(a, s) == a * Pow2(s)
  {
    if s > 0 {
      ShlIsMul(a, s - 1);
      TimesDouble(a, Pow2(s - 1));
    }
  }

  lemma TimesDouble(a: nat, p: nat)
    ensures a * (2 * p) == 2 * (a * p)
  {
  }

  lemma {:induction false} ShrIsDiv(a: nat, s: nat)
    ensures Shr(a, s) == a / Pow2(s)
  {
    if s > 0 {
      ShrIsDiv(a / 2, s - 1);
      HalveQuotient(a, Pow2(s - 1));
    }
  }

  /** Dividing by 2 * p is halving and then dividing by p. */
  lemma HalveQuotient(a: nat, p: nat)
    requires p > 0
    ensures a / (2 * p) == a / 2 / p
    ensures a % (2 * p) == 2 * (a / 2 % p) + a % 2
  {
    var q, r := a / 2 / p, a / 2 % p;
    EuclideanDivision(a / 2, p);
    TimesDouble(q, p);
    DivUnique(a, 2 * p, q, 2 * r + a % 2);
  }

  lemma EuclideanDivision(a: int, d: int)
    requires d > 0
    ensures a == a / d * d + a % d && 0 <= a % d < d
  {
  }

  lemma DivUnique(a: int, d: int, q: int, r: int)
    requires 0 <= r < d && a == q * d + r
    ensures a / d == q && a % d == r
  {
    var k := q - a / d;
    EuclideanDivision(a, d);
    assert k * d == q * d - a / d * d;
    SmallMultiple(k, d);
  }

  lemma {:induction false} LowIsMod(a: nat, s: nat)
    ensures Low(a, s) == a % Pow2(s)
  {
    if s > 0 {
      LowIsMod(a / 2, s - 1);
      HalveQuotient(a, Pow2(s - 1));
    }
  }

  lemma SmallMultiple(k: int, d: int)
    requires d > 0 && -d < k * d < d
    ensures k == 0
  {
  }

  /** Masking with w ones at position s picks out the field there. */
  lemma MaskField(a: nat, mask: nat, w: nat, s: nat)
    requires mask == Shl(Pow2(w) - 1, s)
    ensures And(a, mask) == Shl(a / Pow2(s) % Pow2(w), s)
    ensures Shr(And(a, mask), s) == a / Pow2(s) % Pow2(w)
  {
    hide And, Shl, Shr, Low;
    AndShift(a, Pow2(w) - 1, s);
    ShrIsDiv(a, s);
    AndMask(Shr(a, s), w);
    LowIsMod(Shr(a, s), w);
    ShrInverse(a / Pow2(s) % Pow2(w), s);
  }

  /** The powers and the shifted masks that the packet formats use. */
  lemma Constants()
    ensures Pow2(0) == 1 && Pow2(1) == 2 && Pow2(2) == 4 && Pow2(3) == 8 && Pow2(4) == 16
    ensures Pow2(5) == 32 && Pow2(6) == 64 && Pow2(7) == 128 && Pow2(8) == 256
    ensures Shl(3, 4) == 0x30 && Shl(1, 7) == 0x80 && Shl(1, 3) == 0x08 && Shl(3, 1) == 0x06 && Shl(1, 0) == 1
    ensures Shl(15, 4) == 0xF0 && Shl(255, 8) == 0xFF00 && Shl(255, 0) == 0xFF && Shl(127, 0) == 0x7F
  {
  }
}
