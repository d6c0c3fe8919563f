/** __sk_ffs (include/kernel/base_def.h): the table-driven search for the lowest set bit of a 32-bit word. */
module FindFirstSet {
  import opened Bits

  /** __lowest_bit_bitmap: sixteen rows that differ only in their first entry. */
  const ROW: seq<nat> := [0, 0, 1, 0, 2, 0, 1, 0, 3, 0, 1, 0, 2, 0, 1, 0]

  const FIRST: seq<nat> := [0, 4, 5, 4, 6, 4, 5, 4, 7, 4, 5, 4, 6, 4, 5, 4]

  function Table(b: nat): (r: nat)
    requires b < 256
  {
    if b % 16 == 0 then FIRST[b / 16] else ROW[b % 16]
  }

  /** `x >> k` */
  function Shr(x: nat, k: nat): (r: nat)
    decreases k
  {
    if k == 0 then x else Shr(x / 2, k - 1)
  }

  /** `x << k` without a bound on the width. */
  function Shl(x: nat, k: nat): (r: nat)
    decreases k
  {
    if k == 0 then x else 2 * Shl(x, k - 1)
  }

  lemma {:induction false} ShrShl(x: nat, k: nat)
    ensures Shr(Shl(x, k), k) == x
    decreases k
  {
    if k > 0 { ShrShl(x, k - 1); }
  }

  lemma {:induction false} AndShl(x: nat, m: nat, k: nat)
    ensures And(x, Shl(m, k)) == Shl(And(Shr(x, k), m), k)
    decreases k
  {
    if k > 0 {
      AndDouble(x, Shl(m, k - 1));
      AndShl(x / 2, m, k - 1);
    }
  }

  lemma {:induction false} ShlZero(x: nat, k: nat)
    ensures Shl(x, k) == 0 <==> x == 0
    decreases k
  {
    if k > 0 { ShlZero(x, k - 1); }
  }

  lemma {:induction false} AndBoundRight(a: nat, b: nat)
    ensures And(a, b) <= b
    decreases a
  {
    if a != 0 && b != 0 { AndBoundRight(a / 2, b / 2); }
  }

  /** The byte of `value` at bit k, as the masks and shifts extract it. */
  ghost function Byte(value: nat, k: nat): nat
  {
    And(Shr(value, k), 0xff)
  }

  lemma ByteBound(value: nat, k: nat)
    requires k in {0, 8, 16, 24}
    ensures Byte(value, k) < 256
    ensures var m := match k case 0 => 0xff case 8 => 0xff00 case 16 => 0xff0000 case _ => 0xff00_0000;
            (And(value, m) == 0 <==> Byte(value, k) == 0) && Shr(And(value, m), k) == Byte(value, k)
  {
    AndBoundRight(Shr(value, k), 0xff);
    AndShl(value, 0xff, k);
    ShrShl(Byte(value, k), k);
    ShlZero(Byte(value, k), k);
    assert Shl(0xff, 0) == 0xff && Shl(0xff, 8) == 0xff00 && Shl(0xff, 16) == 0xff0000 && Shl(0xff, 24) == 0xff00_0000;
  }

  function SkFfs(value: nat): (r: nat)
    requires value < Pow2(32)
  {
    ByteBound(value, 0); ByteBound(value, 8); ByteBound(value, 16); ByteBound(value, 24);
    if value == 0 then 0
    else if And(value, 0xff) != 0 then Table(And(value, 0xff)) + 1
    else if And(value, 0xff00) != 0 then Table(Shr(And(value, 0xff00), 8)) + 9
    else if And(value, 0xff0000) != 0 then Table(Shr(And(value, 0xff0000), 16)) + 17
    else Table(Shr(And(value, 0xff00_0000), 24)) + 25
  }

  /** The position of the lowest set bit. */
  ghost predicate IsLowestBit(n: nat, k: nat)
  {
    Bit(n, k) && forall j: nat :: j < k ==> !Bit(n, j)
  }

  // ---- shifts ----

  lemma {:induction false} BitShr(x: nat, k: nat, j: nat)
    ensures Bit(Shr(x, k), j) == Bit(x, k + j)
    decreases k
  {
    if k > 0 { BitShr(x / 2, k - 1, j); }
  }

  // ---- bytes of a word ----

  lemma ByteBit(value: nat, k: nat, j: nat)
    requires j < 8
    ensures Bit(Byte(value, k), j) == Bit(value, k + j)
  {
    AndBit(Shr(value, k), 0xff, j);
    BitShr(value, k, j);
    assert Bit(0xff, j) by {
      if j == 0 {} else if j == 1 {} else if j == 2 {} else if j == 3 {} else if j == 4 {} else if j == 5 {}
      else if j == 6 {} else {}
    }
  }

  lemma ZeroByte(value: nat, k: nat)
    requires Byte(value, k) == 0
    ensures forall j: nat :: k <= j < k + 8 ==> !Bit(value, j)
  {
    forall j: nat | k <= j < k + 8 ensures !Bit(value, j) {
      ByteBit(value, k, j - k);
      ZeroHasNoBits(j - k);
    }
  }

  // ---- the table ----

  lemma RowIsLowestBit(n: nat)
    requires 0 < n < 16
    ensures ROW[n] < 4 && IsLowestBit(n, ROW[n])
  {
    assert Bit(n, 0) == (n % 2 == 1);
    assert Bit(n, 1) == (n / 2 % 2 == 1);
    assert Bit(n, 2) == (n / 2 / 2 % 2 == 1);
    assert Bit(n, 3) == (n / 2 / 2 / 2 % 2 == 1);
  }

  /** The low four bits of a byte, and those above. */
  lemma NibbleBits(b: nat, j: nat)
    ensures j < 4 ==> Bit(b, j) == Bit(b % 16, j)
    ensures Bit(b, 4 + j) == Bit(b / 16, j)
  {
    BitShr(b, 4, j);
    assert Shr(b, 4) == b / 2 / 2 / 2 / 2 == b / 16;
    if j == 0 {} else if j == 1 {} else if j == 2 {} else if j == 3 {}
  }

  lemma TableIsLowestBit(b: nat)
    requires 0 < b < 256
    ensures Table(b) < 8 && IsLowestBit(b, Table(b))
  {
    if b % 16 != 0 {
      RowIsLowestBit(b % 16);
      forall j: nat ensures j < 4 ==> Bit(b, j) == Bit(b % 16, j) { NibbleBits(b, j); }
    } else {
      var h := b / 16;
      RowIsLowestBit(h);
      assert FIRST[h] == 4 + ROW[h];
      forall j: nat | j < 4 + ROW[h] ensures !Bit(b, j) {
        if j < 4 { NibbleBits(b, j); ZeroHasNoBits(j); } else { NibbleBits(b, j - 4); }
      }
      NibbleBits(b, ROW[h]);
    }
  }

  /** The lowest set bit of a word whose lower bits are zero sits in its first non-zero byte. */
  lemma LowestInByte(value: nat, k: nat)
    requires 0 < Byte(value, k) < 256 && forall j: nat :: j < k ==> !Bit(value, j)
    ensures Table(Byte(value, k)) < 8 && IsLowestBit(value, k + Table(Byte(value, k)))
  {
    var b := Byte(value, k);
    TableIsLowestBit(b);
    ByteBit(value, k, Table(b));
    forall j: nat | j < k + Table(b) ensures !Bit(value, j) {
      if j >= k { ByteBit(value, k, j - k); }
    }
  }

  lemma TopByteNonzero(value: nat)
    requires 0 < value < Pow2(32) && forall j: nat :: j < 24 ==> !Bit(value, j)
    ensures Byte(value, 24) != 0
  {
    var i := NonzeroHasBit(value, 32);
    ByteBit(value, 24, i - 24);
    ZeroHasNoBits(i - 24);
  }

  /** __sk_ffs on the four bytes of a word. */
  ghost function FfsOfBytes(b0: nat, b1: nat, b2: nat, b3: nat): nat
    requires b0 < 256 && b1 < 256 && b2 < 256 && b3 < 256
  {
    if b0 != 0 then Table(b0) + 1
    else if b1 != 0 then Table(b1) + 9
    else if b2 != 0 then Table(b2) + 17
    else Table(b3) + 25
  }

  lemma FfsByBytes(value: nat, b0: nat, b1: nat, b2: nat, b3: nat)
    requires 0 < value < Pow2(32)
    requires b0 == Byte(value, 0) && b1 == Byte(value, 8) && b2 == Byte(value, 16) && b3 == Byte(value, 24)
    ensures b0 < 256 && b1 < 256 && b2 < 256 && b3 < 256 && SkFfs(value) == FfsOfBytes(b0, b1, b2, b3)
  {
    ByteBound(value, 0); ByteBound(value, 8); ByteBound(value, 16); ByteBound(value, 24);
  }

  lemma LowestOfHigh(value: nat, b2: nat, b3: nat)
    requires 0 < value < Pow2(32) && b2 < 256 && b3 < 256 && b2 == Byte(value, 16) && b3 == Byte(value, 24)
    requires forall j: nat :: j < 16 ==> !Bit(value, j)
    ensures if b2 != 0 then Table(b2) < 8 && IsLowestBit(value, 16 + Table(b2))
            else Table(b3) < 8 && IsLowestBit(value, 24 + Table(b3))
  {
    if b2 != 0 {
      LowestInByte(value, 16);
    } else {
      ZeroByte(value, 16);
      TopByteNonzero(value);
      LowestInByte(value, 24);
    }
  }

  /** The lowest set bit of the word is that of its first byte that is not zero. */
  lemma LowestOfBytes(value: nat, b0: nat, b1: nat, b2: nat, b3: nat)
    requires 0 < value < Pow2(32) && b0 < 256 && b1 < 256 && b2 < 256 && b3 < 256
    requires b0 == Byte(value, 0) && b1 == Byte(value, 8) && b2 == Byte(value, 16) && b3 == Byte(value, 24)
    ensures 0 < FfsOfBytes(b0, b1, b2, b3) <= 32 && IsLowestBit(value, FfsOfBytes(b0, b1, b2, b3) - 1)
  {
    if b0 != 0 {
      LowestInByte(value, 0);
    } else if b1 != 0 {
      ZeroByte(value, 0);
      LowestInByte(value, 8);
    } else {
      ZeroByte(value, 0); ZeroByte(value, 8);
      LowestOfHigh(value, b2, b3);
    }
  }

  /** __sk_ffs is 0 for 0 and otherwise one more than the position of the lowest set bit. */
  lemma FfsIsLowestBit(value: nat)
    requires value < Pow2(32)
    ensures SkFfs(value) == 0 <==> value == 0
    ensures value != 0 ==> SkFfs(value) <= 32 && IsLowestBit(value, SkFfs(value) - 1)
  {
    if value != 0 {
      var b0, b1, b2, b3 := Byte(value, 0), Byte(value, 8), Byte(value, 16), Byte(value, 24);
      FfsByBytes(value, b0, b1, b2, b3);
      LowestOfBytes(value, b0, b1, b2, b3);
    }
  }
}
