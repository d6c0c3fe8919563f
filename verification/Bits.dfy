/** C's unsigned bit operations on natural numbers, bit by bit, with the arithmetic
    meaning of the masks the kernel uses: SK_ALIGN and the ready-priority word. */
module Bits {
  import opened Arith

  function Pow2(k: nat): (r: nat)
    ensures r > 0
  {
    if k == 0 then 1 else 2 * Pow2(k - 1)
  }

  /** Bit `k` of `n`. */
  predicate Bit(n: nat, k: nat)
    decreases k
  {
    if k == 0 then n % 2 == 1 else Bit(n / 2, k - 1)
  }

  /** `a & b` */
  function And(a: nat, b: nat): (r: nat)
    decreases a
  {
    if a == 0 || b == 0 then 0
    else (if a % 2 == 1 && b % 2 == 1 then 1 else 0) + 2 * And(a / 2, b / 2)
  }

  /** `a | b` */
  function Or(a: nat, b: nat): (r: nat)
    decreases a + b
  {
    if a == 0 && b == 0 then 0
    else (if a % 2 == 1 || b % 2 == 1 then 1 else 0) + 2 * Or(a / 2, b / 2)
  }

  /** `~a` in a word of `width` bits. */
  function Not(a: nat, width: nat): (r: nat)
    requires a < Pow2(width)
    ensures r < Pow2(width)
  {
    Pow2(width) - 1 - a
  }

  lemma {:induction false} ZeroHasNoBits(k: nat)
    ensures !Bit(0, k)
  {
    if k > 0 { ZeroHasNoBits(k - 1); }
  }

  lemma Halves(bit: nat, h: nat)
    requires bit <= 1
    ensures (bit + 2 * h) / 2 == h && (bit + 2 * h) % 2 == bit
  {
  }

  lemma AndHalves(a: nat, b: nat)
    ensures And(a, b) / 2 == And(a / 2, b / 2)
    ensures And(a, b) % 2 == if a % 2 == 1 && b % 2 == 1 then 1 else 0
  {
    if a != 0 && b != 0 { Halves(if a % 2 == 1 && b % 2 == 1 then 1 else 0, And(a / 2, b / 2)); }
  }

  lemma OrHalves(a: nat, b: nat)
    ensures Or(a, b) / 2 == Or(a / 2, b / 2)
    ensures Or(a, b) % 2 == if a % 2 == 1 || b % 2 == 1 then 1 else 0
  {
    if a != 0 || b != 0 { Halves(if a % 2 == 1 || b % 2 == 1 then 1 else 0, Or(a / 2, b / 2)); }
  }

  lemma {:induction false} AndBit(a: nat, b: nat, k: nat)
    ensures Bit(And(a, b), k) <==> Bit(a, k) && Bit(b, k)
    decreases k
  {
    AndHalves(a, b);
    if k > 0 { AndBit(a / 2, b / 2, k - 1); }
  }

  lemma {:induction false} OrBit(a: nat, b: nat, k: nat)
    ensures Bit(Or(a, b), k) <==> Bit(a, k) || Bit(b, k)
    decreases k
  {
    OrHalves(a, b);
    if k > 0 { OrBit(a / 2, b / 2, k - 1); }
  }

  lemma {:induction false} NotBit(a: nat, width: nat, k: nat)
    requires a < Pow2(width) && k < width
    ensures Bit(Not(a, width), k) <==> !Bit(a, k)
    decreases k
  {
    assert Pow2(width) == 2 * Pow2(width - 1);
    if k > 0 {
      assert Not(a, width) / 2 == Not(a / 2, width - 1);
      NotBit(a / 2, width - 1, k - 1);
    }
  }

  lemma {:induction false} Pow2Bit(p: nat, k: nat)
    ensures Bit(Pow2(p), k) <==> k == p
    decreases k
  {
    if p == 0 {
      if k > 0 { ZeroHasNoBits(k - 1); }
    } else {
      assert Pow2(p) == 2 * Pow2(p - 1);
      if k > 0 { Pow2Bit(p - 1, k - 1); }
    }
  }

  lemma {:induction false} OrBound(a: nat, b: nat, width: nat)
    requires a < Pow2(width) && b < Pow2(width)
    ensures Or(a, b) < Pow2(width)
  {
    if width > 0 && (a != 0 || b != 0) { OrBound(a / 2, b / 2, width - 1); }
  }

  lemma {:induction false} AndBound(a: nat, b: nat)
    ensures And(a, b) <= a
    decreases a
  {
    if a != 0 && b != 0 { AndBound(a / 2, b / 2); }
  }

  /** A word is zero exactly when none of its bits is set. */
  lemma {:induction false} NonzeroHasBit(n: nat, width: nat) returns (k: nat)
    requires 0 < n < Pow2(width)
    ensures k < width && Bit(n, k)
  {
    if n % 2 == 1 {
      k := 0;
    } else {
      k := NonzeroHasBit(n / 2, width - 1);
      k := k + 1;
    }
  }

  lemma {:induction false} Pow2Monotone(a: nat, b: nat)
    requires a <= b
    ensures Pow2(a) <= Pow2(b)
    decreases b - a
  {
    if a < b { Pow2Monotone(a, b - 1); }
  }

  lemma {:induction false} Pow2Add(a: nat, b: nat)
    ensures Pow2(a + b) == Pow2(a) * Pow2(b)
    decreases a
  {
    if a > 0 {
      Pow2Add(a - 1, b);
      assert Pow2(a + b) == 2 * Pow2(a - 1 + b);
    }
  }

  /** Masking with all ones of a wide enough word changes nothing. */
  lemma {:induction false} AndOnes(x: nat, width: nat)
    requires x < Pow2(width)
    ensures And(x, Pow2(width) - 1) == x
    decreases width
  {
    if x != 0 {
      assert width > 0;
      assert (Pow2(width) - 1) / 2 == Pow2(width - 1) - 1;
      AndOnes(x / 2, width - 1);
    }
  }

  lemma HalveMod(x: nat, p: nat)
    requires p > 0
    ensures x % (2 * p) == x % 2 + 2 * (x / 2 % p)
  {
    var h := x / 2;
    var q, m := h / p, h % p;
    assert h == q * p + m;
    assert q * (2 * p) == 2 * (q * p);
    DivMod(x, 2 * p, q, x % 2 + 2 * m);
  }

  lemma AndDoublePlusOne(x: nat, m: nat)
    ensures And(x, 2 * m + 1) == x % 2 + 2 * And(x / 2, m)
  {
    if x != 0 {
      assert (2 * m + 1) / 2 == m && (2 * m + 1) % 2 == 1;
    }
  }

  lemma AndLowStep(x: nat, m: nat, p: nat, r: nat)
    requires p > 0 && m == 2 * p - 1 && And(x / 2, p - 1) == r
    ensures And(x, m) == x % 2 + 2 * r
  {
    AndDoublePlusOne(x, p - 1);
    assert m == 2 * (p - 1) + 1;
  }

  /** `x & (2^k - 1)` is `x mod 2^k`. */
  lemma {:induction false} AndLowMask(x: nat, k: nat)
    ensures And(x, Pow2(k) - 1) == x % Pow2(k)
    decreases k
  {
    if k > 0 {
      var p := Pow2(k - 1);
      AndLowMask(x / 2, k - 1);
      AndLowStep(x, Pow2(k) - 1, p, x / 2 % p);
      HalveMod(x, p);
    }
  }

  lemma RoundHalf(x: nat, q: nat)
    ensures 2 * (x / 2 - q) == x - (x % 2 + 2 * q)
  {
  }

  lemma AndDouble(x: nat, m: nat)
    ensures And(x, 2 * m) == 2 * And(x / 2, m)
  {
    if x != 0 && m != 0 {
      assert 2 * m / 2 == m && 2 * m % 2 == 0;
    }
  }

  lemma AndHighStep(x: nat, m: nat, m': nat, r: nat)
    requires m' == 2 * m && And(x / 2, m) == x / 2 - r
    ensures And(x, m') == x - (x % 2 + 2 * r)
  {
    AndDouble(x, m);
    RoundHalf(x, r);
  }

  /** `x & ~(2^k - 1)` rounds `x` down to a multiple of `2^k`. */
  lemma {:induction false} AndHighMask(x: nat, k: nat, width: nat)
    requires x < Pow2(width) && k <= width
    ensures Pow2(k) <= Pow2(width)
    ensures And(x, Not(Pow2(k) - 1, width)) == x - x % Pow2(k)
    decreases k
  {
    Pow2Monotone(k, width);
    if k == 0 {
      AndOnes(x, width);
    } else {
      var p := Pow2(k - 1);
      AndHighMask(x / 2, k - 1, width - 1);
      AndHighStep(x, Not(p - 1, width - 1), Not(Pow2(k) - 1, width), x / 2 % p);
      HalveMod(x, p);
    }
  }

  /** The number of values of a 64-bit word. */
  const WORD: nat := 0x1_0000_0000_0000_0000

  lemma Pow2Step(k: nat)
    requires k >= 3
    ensures Pow2(k) == 2 * Pow2(k - 1) == 4 * Pow2(k - 2) == 8 * Pow2(k - 3)
    ensures Pow2(k + 1) == 2 * Pow2(k) && Pow2(k + 2) == 4 * Pow2(k)
  {
    assert Pow2(k - 1) == 2 * Pow2(k - 2);
    assert Pow2(k + 2) == 2 * Pow2(k + 1);
  }

  lemma SmallPowers()
    ensures Pow2(3) == 8 && Pow2(4) == 16 && Pow2(5) == 32 && Pow2(6) == 64 && Pow2(7) == 128
    ensures Pow2(8) == 256 && Pow2(9) == 512 && Pow2(10) == 1024 && Pow2(12) == 4096
    ensures Pow2(16) == 65536
  {
    Pow2Step(3); Pow2Step(6); Pow2Step(9); Pow2Step(12); Pow2Step(15);
  }

  lemma WordSize()
    ensures Pow2(64) == WORD
  {
    SmallPowers();
    Pow2Add(16, 16);
    Pow2Add(32, 32);
  }

  /** `SK_ALIGN(size, align)` in a 64-bit word, for any `align`, with C's wrap-around. */
  function SkAlign(size: nat, align: nat): (r: nat)
    requires size < WORD && 0 < align <= WORD
  {
    WordSize();
    And((size + align - 1) % WORD, Not(align - 1, 64))
  }

  lemma RoundingUp(size: nat, a: nat, w: nat)
    requires size < w && 0 < a && 2 * a <= w
    ensures var y := (size + a - 1) % w; var r := y - y % a;
            && r % a == 0
            && (size + a - 1 < w ==> size <= r < size + a)
            && (size + a - 1 >= w ==> r == 0)
  {
    var y := (size + a - 1) % w;
    assert y == y / a * a + y % a;
    DivMod(y - y % a, a, y / a, 0);
    if size + a - 1 >= w {
      DivMod(size + a - 1, w, 1, size + a - 1 - w);
      DivMod(y, a, 0, y);
    } else {
      DivMod(size + a - 1, w, 0, size + a - 1);
    }
  }

  lemma SkAlignIs(size: nat, k: nat)
    requires size < WORD && k <= 63
    ensures 2 * Pow2(k) <= WORD
    ensures var y := (size + Pow2(k) - 1) % WORD; SkAlign(size, Pow2(k)) == y - y % Pow2(k)
  {
    WordSize();
    Pow2Monotone(k, 63);
    assert Pow2(64) == 2 * Pow2(63);
    AndHighMask((size + Pow2(k) - 1) % WORD, k, 64);
  }

  /** For a power of two SK_ALIGN rounds up to the next multiple, or wraps to 0. */
  lemma SkAlignRoundsUp(size: nat, k: nat)
    requires size < WORD && k <= 63
    ensures Pow2(k) <= WORD
    ensures SkAlign(size, Pow2(k)) % Pow2(k) == 0
    ensures size + Pow2(k) - 1 < WORD ==> size <= SkAlign(size, Pow2(k)) < size + Pow2(k)
    ensures size + Pow2(k) - 1 >= WORD ==> SkAlign(size, Pow2(k)) == 0
  {
    SkAlignIs(size, k);
    RoundingUp(size, Pow2(k), WORD);
  }

  lemma Mask126(x: nat, width: nat)
    requires width >= 8 && x < Pow2(width)
    ensures 126 < Pow2(width) && And(x, Not(126, width)) == x - x % 128 + x % 2
  {
    assert Pow2(6) == 64 && Pow2(7) == 128 by { SmallPowers(); }
    Pow2Monotone(7, width);
    var m := Not(63, width - 1);
    assert Not(126, width) == 2 * m + 1;
    AndDoublePlusOne(x, m);
    AndHighMask(x / 2, 6, width - 1);
    HalveMod(x, 64);
  }

  lemma SmallMod(x: int, w: int)
    requires 0 <= x < w
    ensures x % w == x && x / w == 0
  {
    DivMod(x, w, 0, x);
  }

  /** `SK_ALIGN(n, 127)`: the mask ~126 keeps bit 0 and clears bits 1 to 6. */
  lemma SkAlign127(n: nat)
    requires n < 65536
    ensures SkAlign(n, 127) == n + 126 - (n + 126) % 128 + n % 2
  {
    WordSize();
    SmallMod(n + 126, WORD);
    Mask126(n + 126, 64);
  }

  lemma PowerWitness(x: nat, k: nat)
    requires x == Pow2(k)
    ensures exists j: nat :: x == Pow2(j)
  {
  }

  lemma HalvePowerOfTwo(x: nat)
    requires x > 0 && x % 2 == 0
    ensures (exists k: nat :: x == Pow2(k)) <==> exists k: nat :: x / 2 == Pow2(k)
  {
    if k: nat :| x / 2 == Pow2(k) {
      assert x == Pow2(k + 1);
      PowerWitness(x, k + 1);
    }
    if k: nat :| x == Pow2(k) {
      assert k > 0;
      var j: nat := k - 1;
      PowerWitness(x / 2, j);
    }
  }

  lemma {:induction false} OrSelf(x: nat)
    ensures Or(x, x) == x
  {
    if x > 0 { OrSelf(x / 2); }
  }

  /** `(x | (x - 1)) + 1 == x << 1` holds exactly for the powers of two. */
  lemma {:induction false} PowerOfTwoTest(x: nat)
    requires x > 0
    ensures Or(x, x - 1) + 1 == 2 * x <==> exists k: nat :: x == Pow2(k)
    decreases x
  {
    if x == 1 {
      PowerWitness(x, 0);
      assert Or(1, 0) == 1;
    } else if x % 2 == 1 {
      OrSelf(x / 2);
      assert (x - 1) / 2 == x / 2;
      forall k: nat ensures x != Pow2(k) { if k > 0 { assert Pow2(k) == 2 * Pow2(k - 1); } }
    } else {
      var y := x / 2;
      PowerOfTwoTest(y);
      assert (x - 1) / 2 == y - 1;
      assert Or(x, x - 1) == 1 + 2 * Or(y, y - 1);
      HalvePowerOfTwo(x);
    }
  }
}
