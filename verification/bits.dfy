/** Bitwise operations on natural numbers, bit by bit from the lowest, and powers of two. */
module Bits {
  const TWO_32: nat := 0x1_0000_0000
  const TWO_64: nat := 0x1_0000_0000_0000_0000

  type Byte = x: nat | x < 256
  type UInt32 = x: nat | x < TWO_32

  function And(x: nat, y: nat): nat {
    if x == 0 && y == 0 then 0
    else (if x % 2 == 1 && y % 2 == 1 then 1 else 0) + 2 * And(x / 2, y / 2)
  }

  function Or(x: nat, y: nat): nat {
    if x == 0 && y == 0 then 0
    else (if x % 2 == 1 || y % 2 == 1 then 1 else 0) + 2 * Or(x / 2, y / 2)
  }

  function Xor(x: nat, y: nat): nat {
    if x == 0 && y == 0 then 0
    else (if x % 2 == y % 2 then 0 else 1) + 2 * Xor(x / 2, y / 2)
  }

  function Pow2(k: nat): nat {
    if k == 0 then 1 else 2 * Pow2(k - 1)
  }

  lemma Powers()
    ensures Pow2(1) == 2 && Pow2(4) == 16 && Pow2(7) == 128 && Pow2(8) == 256
    ensures Pow2(16) == 65536 && Pow2(24) == 16777216 && Pow2(32) == TWO_32
  {
    assert Pow2(14) == 64 * Pow2(8);
    assert Pow2(20) == 64 * Pow2(14);
    assert Pow2(26) == 64 * Pow2(20);
  }

  // Signed numbers of 32 bits.

  predicate FitsInt32(x: int) {
    -0x8000_0000 <= x <= 0x7FFF_FFFF
  }

  /** Storing an integer in an int32_t field. */
  function ToInt32(x: int): (r: int)
    ensures FitsInt32(r)
    ensures FitsInt32(x) <==> r == x
  {
    (x + 0x8000_0000) % 0x1_0000_0000 - 0x8000_0000
  }

  // The lowest bit and the rest of a result.

  lemma Halves(b: nat, r: nat)
    requires b < 2
    ensures (b + 2 * r) % 2 == b && (b + 2 * r) / 2 == r
  {
  }

  lemma AndParts(x: nat, y: nat)
    ensures And(x, y) % 2 == if x % 2 == 1 && y % 2 == 1 then 1 else 0
    ensures And(x, y) / 2 == And(x / 2, y / 2)
  {
    Halves(if x % 2 == 1 && y % 2 == 1 then 1 else 0, And(x / 2, y / 2));
  }

  lemma OrParts(x: nat, y: nat)
    ensures Or(x, y) % 2 == if x % 2 == 1 || y % 2 == 1 then 1 else 0
    ensures Or(x, y) / 2 == Or(x / 2, y / 2)
  {
    Halves(if x % 2 == 1 || y % 2 == 1 then 1 else 0, Or(x / 2, y / 2));
  }

  lemma XorParts(x: nat, y: nat)
    ensures Xor(x, y) % 2 == if x % 2 == y % 2 then 0 else 1
    ensures Xor(x, y) / 2 == Xor(x / 2, y / 2)
  {
    Halves(if x % 2 == y % 2 then 0 else 1, Xor(x / 2, y / 2));
  }

  lemma SameParts(x: nat, y: nat)
    requires x % 2 == y % 2 && x / 2 == y / 2
    ensures x == y
  {
  }

  // Bounds.

  lemma {:induction false} AndBound(x: nat, y: nat, k: nat)
    requires x < Pow2(k) && y < Pow2(k)
    ensures And(x, y) < Pow2(k)
  {
    if k > 0 {
      AndBound(x / 2, y / 2, k - 1);
    }
  }

  lemma {:induction false} OrBound(x: nat, y: nat, k: nat)
    requires x < Pow2(k) && y < Pow2(k)
    ensures Or(x, y) < Pow2(k)
  {
    if k > 0 {
      OrBound(x / 2, y / 2, k - 1);
    }
  }

  lemma {:induction false} XorBound(x: nat, y: nat, k: nat)
    requires x < Pow2(k) && y < Pow2(k)
    ensures Xor(x, y) < Pow2(k)
  {
    if k > 0 {
      XorBound(x / 2, y / 2, k - 1);
    }
  }

  // Words of 32 bits.

  function And32(x: UInt32, y: UInt32): UInt32 {
    Powers();
    AndBound(x, y, 32);
    And(x, y)
  }

  function Or32(x: UInt32, y: UInt32): UInt32 {
    Powers();
    OrBound(x, y, 32);
    Or(x, y)
  }

  function Xor32(x: UInt32, y: UInt32): UInt32 {
    Powers();
    XorBound(x, y, 32);
    Xor(x, y)
  }

  // The lowest k bits.

  function LowBits(x: nat, k: nat): nat
    decreases k, x
  {
    if k == 0 then 0 else x % 2 + 2 * LowBits(x / 2, k - 1)
  }

  lemma LowParts(x: nat, k: nat)
    requires k > 0
    ensures LowBits(x, k) % 2 == x % 2 && LowBits(x, k) / 2 == LowBits(x / 2, k - 1)
  {
    Halves(x % 2, LowBits(x / 2, k - 1));
  }

  function HighBits(x: nat, k: nat): nat
    decreases k, x
  {
    if k == 0 then x else HighBits(x / 2, k - 1)
  }

  lemma DoubleProduct(a: nat, b: nat)
    ensures (2 * a) * b == 2 * (a * b) && b * (2 * a) == 2 * (b * a)
  {
  }

  lemma {:induction false} SplitBits(x: nat, k: nat)
    ensures x == Pow2(k) * HighBits(x, k) + LowBits(x, k) && LowBits(x, k) < Pow2(k)
  {
    if k > 0 {
      SplitBits(x / 2, k - 1);
      DoubleProduct(Pow2(k - 1), HighBits(x / 2, k - 1));
    }
  }

  lemma LowBitsOf32(x: nat)
    ensures LowBits(x, 32) == x % TWO_32
  {
    SplitBits(x, 32);
    Powers();
    RemainderOf(x, HighBits(x, 32), LowBits(x, 32));
  }

  lemma DropMultiple(k: nat, y: nat)
    ensures (k * TWO_32 + y) % TWO_32 == y % TWO_32
  {
    RemainderOf(k * TWO_32 + y, k + y / TWO_32, y % TWO_32);
  }

  lemma RemainderOf(x: nat, q: nat, r: nat)
    requires x == TWO_32 * q + r && r < TWO_32
    ensures r == x % TWO_32
  {
  }

  lemma {:induction false} AndLow(x: nat, y: nat, k: nat)
    ensures LowBits(And(x, y), k) == And(LowBits(x, k), LowBits(y, k))
  {
    if k > 0 {
      AndLow(x / 2, y / 2, k - 1);
      AndParts(x, y);
      LowParts(x, k);
      LowParts(y, k);
      LowParts(And(x, y), k);
      AndParts(LowBits(x, k), LowBits(y, k));
      hide And, LowBits;
      SameParts(LowBits(And(x, y), k), And(LowBits(x, k), LowBits(y, k)));
    }
  }

  lemma {:induction false} OrLow(x: nat, y: nat, k: nat)
    ensures LowBits(Or(x, y), k) == Or(LowBits(x, k), LowBits(y, k))
  {
    if k > 0 {
      OrLow(x / 2, y / 2, k - 1);
      OrParts(x, y);
      LowParts(x, k);
      LowParts(y, k);
      LowParts(Or(x, y), k);
      OrParts(LowBits(x, k), LowBits(y, k));
      hide Or, LowBits;
      SameParts(LowBits(Or(x, y), k), Or(LowBits(x, k), LowBits(y, k)));
    }
  }

  lemma {:induction false} XorLow(x: nat, y: nat, k: nat)
    ensures LowBits(Xor(x, y), k) == Xor(LowBits(x, k), LowBits(y, k))
  {
    if k > 0 {
      XorLow(x / 2, y / 2, k - 1);
      XorParts(x, y);
      LowParts(x, k);
      LowParts(y, k);
      LowParts(Xor(x, y), k);
      XorParts(LowBits(x, k), LowBits(y, k));
      hide Xor, LowBits;
      SameParts(LowBits(Xor(x, y), k), Xor(LowBits(x, k), LowBits(y, k)));
    }
  }

  /** Masking keeps the lowest k bits. */
  lemma {:induction false} AndMask(x: nat, k: nat)
    ensures Pow2(k) > 0 && And(x, Pow2(k) - 1) == LowBits(x, k)
  {
    if k > 0 {
      AndMask(x / 2, k - 1);
      AndParts(x, Pow2(k) - 1);
    } else {
      AndZero(x);
    }
  }

  lemma {:induction false} AndZero(x: nat)
    ensures And(x, 0) == 0
  {
    if x > 0 {
      AndZero(x / 2);
    }
  }

  /** Joining numbers without common bits is adding them. */
  lemma {:induction false} OrAdds(x: nat, y: nat, k: nat)
    requires y < Pow2(k)
    ensures Or(x * Pow2(k), y) == x * Pow2(k) + y
  {
    if k > 0 {
      OrAdds(x, y / 2, k - 1);
      DoubleProduct(Pow2(k - 1), x);
      OrDoubled(x * Pow2(k - 1), y);
    } else {
      OrZero(x);
    }
  }

  lemma OrDoubled(a: nat, y: nat)
    requires Or(a, y / 2) == a + y / 2
    ensures Or(2 * a, y) == 2 * a + y
  {
    OrParts(2 * a, y);
  }

  lemma {:induction false} OrZero(x: nat)
    ensures Or(x, 0) == x
  {
    if x > 0 {
      OrZero(x / 2);
    }
  }

  // Cancellation of exclusive or.

  lemma {:induction false} XorZero(x: nat)
    ensures Xor(x, 0) == x
  {
    if x > 0 {
      XorZero(x / 2);
    }
  }

  lemma XorDoubled(x: nat, b: nat, y: nat)
    requires b < 2
    ensures Xor(2 * x + b, 2 * y) == 2 * Xor(x, y) + b
  {
    Halves(b, x);
    Halves(0, y);
    XorParts(b + 2 * x, 2 * y);
  }

  lemma {:induction false} XorFlips(x: nat, k: nat)
    ensures HighBits(x, k) % 2 == 1 ==> x >= Pow2(k)
    ensures Xor(x, Pow2(k)) == if HighBits(x, k) % 2 == 0 then x + Pow2(k) else x - Pow2(k)
  {
    if k == 0 {
      XorZero(x / 2);
    } else {
      XorFlips(x / 2, k - 1);
      XorDoubled(x / 2, x % 2, Pow2(k - 1));
    }
  }

  lemma {:induction false} HighBitsOf(q: nat, r: nat, k: nat)
    requires r < Pow2(k)
    ensures HighBits(q * Pow2(k) + r, k) == q
  {
    if k > 0 {
      HighBitsOf(q, r / 2, k - 1);
      DoubleProduct(Pow2(k - 1), q);
      Halves(r % 2, q * Pow2(k - 1) + r / 2);
    }
  }

  /** Exclusive or with 2^k flips bit k. */
  lemma XorBit(q: nat, r: nat, k: nat)
    requires r < Pow2(k)
    ensures var x := q * Pow2(k) + r; Xor(x, Pow2(k)) == if q % 2 == 0 then x + Pow2(k) else x - Pow2(k)
  {
    hide Xor, HighBits, Pow2;
    HighBitsOf(q, r, k);
    XorFlips(q * Pow2(k) + r, k);
  }

  lemma {:induction false} XorInjective(x: nat, y: nat, z: nat)
    requires Xor(x, z) == Xor(y, z)
    ensures x == y
    decreases x + y + z
  {
    if x + y + z > 0 {
      XorInjective(x / 2, y / 2, z / 2);
    }
  }

  lemma {:induction false} OrCommutes(x: nat, y: nat)
    ensures Or(x, y) == Or(y, x)
    decreases x + y
  {
    if x + y > 0 {
      OrCommutes(x / 2, y / 2);
    }
  }

  lemma {:induction false} XorCommutes(x: nat, y: nat)
    ensures Xor(x, y) == Xor(y, x)
    decreases x + y
  {
    if x + y > 0 {
      XorCommutes(x / 2, y / 2);
    }
  }

  // The functions of SHA-1.

  /** The complement of a k-bit number. */
  function Not(x: nat, k: nat): nat
    requires x < Pow2(k)
  {
    Pow2(k) - 1 - x
  }

  lemma NotParts(x: nat, k: nat)
    requires k > 0 && x < Pow2(k)
    ensures x / 2 < Pow2(k - 1) && Not(x, k) % 2 == 1 - x % 2 && Not(x, k) / 2 == Not(x / 2, k - 1)
  {
    var p := Pow2(k - 1);
    assert Not(x, k) == 1 - x % 2 + 2 * (p - 1 - x / 2);
    Halves(1 - x % 2, p - 1 - x / 2);
  }

  lemma {:induction false} ChooseIdentity(x: nat, y: nat, z: nat, k: nat)
    requires x < Pow2(k) && y < Pow2(k) && z < Pow2(k)
    ensures Xor(z, And(x, Xor(y, z))) == Xor(And(x, y), And(Not(x, k), z))
  {
    if k > 0 {
      hide And, Xor, Not, Pow2;
      NotParts(x, k);
      NotParts(y, k);
      NotParts(z, k);
      ChooseIdentity(x / 2, y / 2, z / 2, k - 1);
      XorParts(y, z);
      AndParts(x, Xor(y, z));
      XorParts(z, And(x, Xor(y, z)));
      AndParts(x, y);
      AndParts(Not(x, k), z);
      XorParts(And(x, y), And(Not(x, k), z));
      SameParts(Xor(z, And(x, Xor(y, z))), Xor(And(x, y), And(Not(x, k), z)));
    }
  }

  lemma {:induction false} MajorityIdentity(x: nat, y: nat, z: nat)
    ensures Or(And(x, y), And(z, Or(x, y))) == Xor(Xor(And(x, y), And(x, z)), And(y, z))
    decreases x + y + z
  {
    if x + y + z > 0 {
      MajorityIdentity(x / 2, y / 2, z / 2);
      OrParts(x, y);
      AndParts(x, y);
      AndParts(z, Or(x, y));
      OrParts(And(x, y), And(z, Or(x, y)));
      AndParts(x, z);
      AndParts(y, z);
      XorParts(And(x, y), And(x, z));
      XorParts(Xor(And(x, y), And(x, z)), And(y, z));
      hide And, Or, Xor;
      SameParts(Or(And(x, y), And(z, Or(x, y))), Xor(Xor(And(x, y), And(x, z)), And(y, z)));
    }
  }
}
