/** The word operations of src/sha1.c. The code declares its words `unsigned long`, which
    has 32 bits on the routers and 64 on other machines; `wide` says which. What matters is
    the low half of a word: in both cases it is the word of the standard. */
module Sha1Words {
  import opened Bits
  import opened Sha1Spec

  type ULong = nat

  function Low(x: ULong): Word {
    x % TWO_32
  }

  /** Storing a result in an unsigned long. */
  function Fit(wide: bool, x: nat): ULong {
    if wide then x % TWO_64 else x % TWO_32
  }

  const MASK: nat := 0xffff_ffff

  // The macros S, F and K, and the sum in P.

  function S1(wide: bool, x: ULong): ULong {
    Or(Fit(wide, x * 2), And(x, MASK) / 0x8000_0000)
  }

  function S5(wide: bool, x: ULong): ULong {
    Or(Fit(wide, x * 0x20), And(x, MASK) / 0x800_0000)
  }

  function S30(wide: bool, x: ULong): ULong {
    Or(Fit(wide, x * 0x4000_0000), And(x, MASK) / 4)
  }

  function CodeF(t: nat, x: ULong, y: ULong, z: ULong): ULong {
    if t < 20 then Xor(z, And(x, Xor(y, z)))
    else if t < 40 then Xor(Xor(x, y), z)
    else if t < 60 then Or(And(x, y), And(z, Or(x, y)))
    else Xor(Xor(x, y), z)
  }

  function CodeK(t: nat): ULong {
    if t < 20 then 0x5A827999
    else if t < 40 then 0x6ED9EBA1
    else if t < 60 then 0x8F1BBCDC
    else 0xCA62C1D6
  }

  function Plus(wide: bool, x: ULong, y: ULong): ULong {
    Fit(wide, x + y)
  }

  // Low halves.

  lemma LowFit(wide: bool, x: nat)
    ensures Low(Fit(wide, x)) == Low(x)
  {
    if wide {
      var q := x / TWO_64;
      assert x == (q * TWO_32) * TWO_32 + x % TWO_64;
      DropMultiple(q * TWO_32, x % TWO_64);
    }
  }

  lemma LowSum(x: nat, y: nat)
    ensures Low(x + y) == (Low(x) + Low(y)) % TWO_32
  {
    var q, r := x / TWO_32, y / TWO_32;
    assert x + y == (q + r) * TWO_32 + (Low(x) + Low(y));
  }

  lemma LowPlus(wide: bool, x: ULong, y: ULong)
    ensures Low(Plus(wide, x, y)) == (Low(x) + Low(y)) % TWO_32
  {
    LowFit(wide, x + y);
    LowSum(x, y);
  }

  lemma LowXor(x: ULong, y: ULong)
    ensures Low(Xor(x, y)) == Xor32(Low(x), Low(y))
  {
    XorLow(x, y, 32);
    LowBitsOf32(x);
    LowBitsOf32(y);
    LowBitsOf32(Xor(x, y));
  }

  lemma LowAnd(x: ULong, y: ULong)
    ensures Low(And(x, y)) == And32(Low(x), Low(y))
  {
    AndLow(x, y, 32);
    LowBitsOf32(x);
    LowBitsOf32(y);
    LowBitsOf32(And(x, y));
  }

  lemma LowOr(x: ULong, y: ULong)
    ensures Low(Or(x, y)) == Or32(Low(x), Low(y))
  {
    OrLow(x, y, 32);
    LowBitsOf32(x);
    LowBitsOf32(y);
    LowBitsOf32(Or(x, y));
  }

  lemma MaskIsLow(x: ULong)
    ensures And(x, MASK) == Low(x)
  {
    Powers();
    AndMask(x, 32);
    LowBitsOf32(x);
  }

  lemma LowTimes(wide: bool, x: ULong, m: nat)
    ensures Low(Fit(wide, x * m)) == Low(x) * m % TWO_32
  {
    LowFit(wide, x * m);
    var q := x / TWO_32;
    TimesModulo(q, Low(x), m);
  }

  lemma TimesModulo(q: nat, r: nat, m: nat)
    ensures (q * TWO_32 + r) * m % TWO_32 == r * m % TWO_32
  {
    assert (q * TWO_32 + r) * m == (q * m) * TWO_32 + r * m;
  }

  lemma LowOfWord(x: Word)
    ensures Low(x) == x
  {
  }

  lemma LowS1(wide: bool, x: ULong)
    ensures Low(S1(wide, x)) == RotL1(Low(x))
  {
    hide Low, Fit, And, Or, Or32;
    MaskIsLow(x);
    LowTimes(wide, x, 2);
    LowOr(Fit(wide, x * 2), Low(x) / 0x8000_0000);
    LowOfWord(Low(x) / 0x8000_0000);
  }

  lemma LowS5(wide: bool, x: ULong)
    ensures Low(S5(wide, x)) == RotL5(Low(x))
  {
    hide Low, Fit, And, Or, Or32;
    MaskIsLow(x);
    LowTimes(wide, x, 0x20);
    LowOr(Fit(wide, x * 0x20), Low(x) / 0x800_0000);
    LowOfWord(Low(x) / 0x800_0000);
  }

  lemma LowS30(wide: bool, x: ULong)
    ensures Low(S30(wide, x)) == RotL30(Low(x))
  {
    hide Low, Fit, And, Or, Or32;
    MaskIsLow(x);
    LowTimes(wide, x, 0x4000_0000);
    LowOr(Fit(wide, x * 0x4000_0000), Low(x) / 4);
    LowOfWord(Low(x) / 4);
  }

  lemma ChIdentity(x: Word, y: Word, z: Word)
    ensures Xor32(z, And32(x, Xor32(y, z))) == Ch(x, y, z)
  {
    Powers();
    ChooseIdentity(x, y, z, 32);
  }

  lemma MajIdentity(x: Word, y: Word, z: Word)
    ensures Or32(And32(x, y), And32(z, Or32(x, y))) == Maj(x, y, z)
  {
    MajorityIdentity(x, y, z);
  }

  /** The rewritten functions are Ch, Parity and Maj. */
  lemma LowF(t: nat, x: ULong, y: ULong, z: ULong)
    ensures Low(CodeF(t, x, y, z)) == F(t, Low(x), Low(y), Low(z))
  {
    hide Low, Xor32, And32, Or32, Ch, Maj;
    if t < 20 {
      LowXor(z, And(x, Xor(y, z)));
      LowAnd(x, Xor(y, z));
      LowXor(y, z);
      ChIdentity(Low(x), Low(y), Low(z));
    } else if 40 <= t < 60 {
      LowOr(And(x, y), And(z, Or(x, y)));
      LowAnd(x, y);
      LowAnd(z, Or(x, y));
      LowOr(x, y);
      MajIdentity(Low(x), Low(y), Low(z));
    } else {
      LowXor(Xor(x, y), z);
      LowXor(x, y);
    }
  }

  lemma LowK(t: nat)
    ensures Low(CodeK(t)) == K(t)
  {
  }

  // One round. P(a,b,c,d,e,x) changes e and b.

  function PSum(wide: bool, t: nat, a: ULong, b: ULong, c: ULong, d: ULong, e: ULong, x: ULong): ULong {
    Plus(wide, e, Plus(wide, Plus(wide, Plus(wide, S5(wide, a), CodeF(t, b, c, d)), CodeK(t)), x))
  }

  lemma SumModulo(e: Word, s: Word, f: Word, k: Word, w: Word)
    ensures (e + (((s + f) % TWO_32 + k) % TWO_32 + w) % TWO_32) % TWO_32 == (s + f + e + k + w) % TWO_32
  {
    AddModulo(s + f, k);
    AddModulo(s + f + k, w);
    AddModulo(s + f + k + w, e);
  }

  lemma AddModulo(x: nat, y: nat)
    ensures (x % TWO_32 + y) % TWO_32 == (x + y) % TWO_32
  {
    var q := x / TWO_32;
    assert x + y == q * TWO_32 + (x % TWO_32 + y);
  }

  /** The five registers, in the order a round names them, carry the values of v. */
  ghost predicate Carries(v: Hash, a: ULong, b: ULong, c: ULong, d: ULong, e: ULong) {
    Low(a) == v.a && Low(b) == v.b && Low(c) == v.c && Low(d) == v.d && Low(e) == v.e
  }

  /** Renaming instead of shifting: after P the registers are read in the order e, a, b, c, d. */
  lemma PRefinesRound(wide: bool, t: nat, v: Hash, a: ULong, b: ULong, c: ULong, d: ULong, e: ULong, x: ULong)
    requires Carries(v, a, b, c, d, e)
    ensures Carries(Round(t, v, Low(x)), PSum(wide, t, a, b, c, d, e, x), a, S30(wide, b), c, d)
  {
    hide Low, Plus, S5, S30, CodeF, CodeK, RotL5, RotL30, F, K;
    var s, f, k := S5(wide, a), CodeF(t, b, c, d), CodeK(t);
    LowS5(wide, a);
    LowF(t, b, c, d);
    LowK(t);
    LowS30(wide, b);
    LowPlus(wide, s, f);
    LowPlus(wide, Plus(wide, s, f), k);
    LowPlus(wide, Plus(wide, Plus(wide, s, f), k), x);
    LowPlus(wide, e, Plus(wide, Plus(wide, Plus(wide, s, f), k), x));
    SumModulo(v.e, RotL5(v.a), F(t, v.b, v.c, v.d), K(t), Low(x));
  }

  // The circular message schedule: W[t & 15] is overwritten with word t.

  /** The index t & 0x0F. */
  function Place(t: nat): (j: nat)
    ensures j < 16
  {
    t % 16
  }

  /** The latest word in place j before word t is computed. */
  function Latest(t: nat, j: nat): nat
    requires j < 16
  {
    if t < 16 then j else t - 1 - (t - 1 - j) % 16
  }

  ghost predicate Window(w: seq<ULong>, block: Bytes, t: nat)
    requires |block| == 64
  {
    |w| == 16 && forall j: nat :: j < 16 ==> Low(w[j]) == Schedule(block, Latest(t, j))
  }

  lemma LatestBack(t: nat, d: nat)
    requires t >= 16 && 1 <= d <= 16
    ensures Latest(t, Place(t - d)) == t - d
  {
    var j, q := Place(t - d), (t - d) / 16;
    assert t - 1 - j == 16 * q + (d - 1);
  }

  lemma LatestNext(t: nat, j: nat)
    requires t >= 16 && j < 16
    ensures Latest(t + 1, j) == if j == Place(t) then t else Latest(t, j)
  {
    var q, r := (t - 1 - j) / 16, (t - 1 - j) % 16;
    assert t - 1 - j == 16 * q + r;
    if r == 15 {
      assert t == 16 * (q + 1) + j;
    } else {
      assert t - j == 16 * q + (r + 1);
      PlaceIs(t, j, q, r + 1);
    }
  }

  lemma PlaceIs(t: nat, j: nat, q: nat, r: nat)
    requires j < 16 && 0 < r < 16 && t == 16 * q + j + r
    ensures Place(t) != j && (t - j) % 16 == r
  {
  }

  /** The macro R: word t from the words 3, 8, 14 and 16 places back. */
  function R(wide: bool, w: seq<ULong>, t: nat): ULong
    requires |w| == 16 && t >= 16
  {
    S1(wide, Xor(Xor(Xor(w[Place(t - 3)], w[Place(t - 8)]), w[Place(t - 14)]), w[Place(t)]))
  }

  lemma NextWord(wide: bool, block: Bytes, t: nat, x3: ULong, x8: ULong, x14: ULong, x16: ULong)
    requires |block| == 64 && t >= 16
    requires Low(x3) == Schedule(block, t - 3) && Low(x8) == Schedule(block, t - 8)
    requires Low(x14) == Schedule(block, t - 14) && Low(x16) == Schedule(block, t - 16)
    ensures Low(S1(wide, Xor(Xor(Xor(x3, x8), x14), x16))) == Schedule(block, t)
  {
    hide Low, RotL1, Xor32, S1, BlockWord;
    LowXor(x3, x8);
    LowXor(Xor(x3, x8), x14);
    LowXor(Xor(Xor(x3, x8), x14), x16);
    LowS1(wide, Xor(Xor(Xor(x3, x8), x14), x16));
  }

  lemma WindowBack(w: seq<ULong>, block: Bytes, t: nat, d: nat)
    requires |block| == 64 && t >= 16 && Window(w, block, t)
    requires 1 <= d <= 16
    ensures Low(w[Place(t - d)]) == Schedule(block, t - d)
  {
    hide Low, Schedule, Latest;
    LatestBack(t, d);
  }

  lemma SamePlace(t: nat)
    requires t >= 16
    ensures Place(t - 16) == Place(t)
  {
  }

  lemma WindowSize(w: seq<ULong>, block: Bytes, t: nat)
    requires |block| == 64 && Window(w, block, t)
    ensures |w| == 16
  {
  }

  lemma RFrom(wide: bool, w: seq<ULong>, t: nat)
    requires |w| == 16 && t >= 16
    ensures R(wide, w, t)
            == S1(wide, Xor(Xor(Xor(w[Place(t - 3)], w[Place(t - 8)]), w[Place(t - 14)]), w[Place(t - 16)]))
  {
    SamePlace(t);
    hide Place, S1, Xor;
  }

  lemma RIsSchedule(wide: bool, w: seq<ULong>, block: Bytes, t: nat)
    requires |block| == 64 && t >= 16 && Window(w, block, t)
    ensures Low(R(wide, w, t)) == Schedule(block, t)
  {
    hide *;
    WindowSize(w, block, t);
    RFrom(wide, w, t);
    WindowBack(w, block, t, 3);
    WindowBack(w, block, t, 8);
    WindowBack(w, block, t, 14);
    WindowBack(w, block, t, 16);
    NextWord(wide, block, t, w[Place(t - 3)], w[Place(t - 8)], w[Place(t - 14)], w[Place(t - 16)]);
  }

  lemma WindowNext(wide: bool, w: seq<ULong>, block: Bytes, t: nat)
    requires |block| == 64 && t >= 16 && Window(w, block, t)
    ensures Window(w[Place(t) := R(wide, w, t)], block, t + 1)
  {
    RIsSchedule(wide, w, block, t);
    hide Low, R, Schedule, Latest;
    var w1 := w[Place(t) := R(wide, w, t)];
    forall j: nat | j < 16 ensures Low(w1[j]) == Schedule(block, Latest(t + 1, j)) {
      LatestNext(t, j);
    }
  }

  // Bytes.

  /** GET_ULONG_BE of four bytes */
  function GetBytes(b0: nat, b1: nat, b2: nat, b3: nat): ULong {
    Or(Or(Or(b0 * 0x100_0000, b1 * 0x1_0000), b2 * 0x100), b3)
  }

  /** PUT_ULONG_BE */
  function PutBytes(n: ULong): (s: Bytes)
    ensures |s| == 4
  {
    [n / 0x100_0000 % 256, n / 0x1_0000 % 256, n / 0x100 % 256, n % 256]
  }

  lemma GetWord(b0: Byte, b1: Byte, b2: Byte, b3: Byte)
    ensures GetBytes(b0, b1, b2, b3) == WordOf(b0, b1, b2, b3)
  {
    hide Or;
    Powers();
    OrAdds(b0, b1 * 0x1_0000, 24);
    OrAdds(b0 * 0x100 + b1, b2 * 0x100, 16);
    OrAdds(b0 * 0x1_0000 + b1 * 0x100 + b2, b3, 8);
  }

  lemma ModuloShift(k: nat, x: nat)
    ensures (256 * k + x) % 256 == x % 256
  {
  }

  lemma LowByte3(q: nat, r: Word)
    ensures (q * TWO_32 + r) / 0x100_0000 % 256 == r / 0x100_0000
  {
    assert (q * TWO_32 + r) / 0x100_0000 == q * 0x100 + r / 0x100_0000;
  }

  lemma LowByte2(q: nat, r: Word)
    ensures (q * TWO_32 + r) / 0x1_0000 % 256 == r / 0x1_0000 % 256
  {
    assert (q * TWO_32 + r) / 0x1_0000 == q * 0x1_0000 + r / 0x1_0000;
    ModuloShift(q * 0x100, r / 0x1_0000);
  }

  lemma LowByte1(q: nat, r: Word)
    ensures (q * TWO_32 + r) / 0x100 % 256 == r / 0x100 % 256
  {
    assert (q * TWO_32 + r) / 0x100 == q * 0x100_0000 + r / 0x100;
    ModuloShift(q * 0x1_0000, r / 0x100);
  }

  lemma LowByte0(q: nat, r: Word)
    ensures (q * TWO_32 + r) % 256 == r % 256
  {
    ModuloShift(q * 0x100_0000, r);
  }

  lemma PutLow(n: ULong)
    ensures PutBytes(n) == WordBytes(Low(n))
  {
    var q, r := n / TWO_32, Low(n);
    assert n == q * TWO_32 + r;
    LowByte3(q, r);
    LowByte2(q, r);
    LowByte1(q, r);
    LowByte0(q, r);
  }

  // The length field.

  /** The high and low word of the bit length, from the two counters of bytes. */
  function HighWord(wide: bool, total0: nat, total1: nat): ULong {
    Or(total0 / 0x2000_0000, Fit(wide, total1 * 8))
  }

  function LowWord(wide: bool, total0: nat): ULong {
    Fit(wide, total0 * 8)
  }

  lemma EightTimesHigh(n: nat)
    ensures 8 * n / TWO_32 == 8 * (n / TWO_32) + n % TWO_32 / 0x2000_0000
  {
    var q, r := n / TWO_32, n % TWO_32;
    assert 8 * n == 8 * q * TWO_32 + 8 * r;
  }

  lemma ModuloTwice(x: nat)
    ensures x % TWO_32 % 0x2000_0000 == x % 0x2000_0000
  {
    var q := x / TWO_32;
    assert x == q * 8 * 0x2000_0000 + x % TWO_32;
  }

  lemma EightTimesModulo(q: nat, c: nat)
    requires c < 8
    ensures (8 * q + c) % TWO_32 == q % 0x2000_0000 * 8 + c
  {
    var m := q / 0x2000_0000;
    assert q == m * 0x2000_0000 + q % 0x2000_0000;
    assert 8 * q + c == m * TWO_32 + (q % 0x2000_0000 * 8 + c);
  }

  lemma HighArithmetic(n: nat, total1: nat)
    requires total1 % TWO_32 == n / TWO_32 % TWO_32
    ensures total1 % 0x2000_0000 * 8 + n % TWO_32 / 0x2000_0000 == 8 * n / TWO_32 % TWO_32
  {
    ModuloTwice(total1);
    ModuloTwice(n / TWO_32);
    EightTimesHigh(n);
    EightTimesModulo(n / TWO_32, n % TWO_32 / 0x2000_0000);
  }

  lemma TimesEight(x: nat)
    ensures x * 8 % TWO_32 == x % 0x2000_0000 * 8
  {
    var q := x / 0x2000_0000;
    assert x * 8 == q * TWO_32 + x % 0x2000_0000 * 8;
  }

  lemma HighIsLength(wide: bool, n: nat, total1: nat)
    requires total1 % TWO_32 == n / TWO_32 % TWO_32
    ensures Low(HighWord(wide, n % TWO_32, total1)) == 8 * n / TWO_32 % TWO_32
  {
    var c := n % TWO_32 / 0x2000_0000;
    LowOr(c, Fit(wide, total1 * 8));
    LowFit(wide, total1 * 8);
    LowOfWord(c);
    TimesEight(total1);
    Powers();
    assert Pow2(3) == 8;
    OrAdds(total1 % 0x2000_0000, c, 3);
    OrCommutes(c, total1 % 0x2000_0000 * 8);
    HighArithmetic(n, total1);
  }

  lemma LowIsLength(wide: bool, n: nat)
    ensures Low(LowWord(wide, n % TWO_32)) == 8 * n % TWO_32
  {
    LowFit(wide, n % TWO_32 * 8);
    TimesModulo(n / TWO_32, n % TWO_32, 8);
  }

  lemma PowersOf256()
    ensures Power256(0) == 1 && Power256(1) == 0x100 && Power256(2) == 0x1_0000 && Power256(3) == 0x100_0000
    ensures Power256(4) == TWO_32 && Power256(5) == 0x100 * TWO_32
    ensures Power256(6) == 0x1_0000 * TWO_32 && Power256(7) == 0x100_0000 * TWO_32
  {
  }

  lemma LowBytesOf(l: nat)
    ensures WordBytes(l % TWO_32) == [l / 0x100_0000 % 256, l / 0x1_0000 % 256, l / 0x100 % 256, l % 256]
  {
    var q, r := l / TWO_32, l % TWO_32;
    assert l == q * TWO_32 + r;
    LowByte3(q, r);
    LowByte2(q, r);
    LowByte1(q, r);
    LowByte0(q, r);
  }

  lemma DivideTwice(l: nat)
    ensures l / TWO_32 / 0x100_0000 == l / (0x100_0000 * TWO_32)
    ensures l / TWO_32 / 0x1_0000 == l / (0x1_0000 * TWO_32)
    ensures l / TWO_32 / 0x100 == l / (0x100 * TWO_32)
  {
  }

  lemma BigEndian(l: nat)
    ensures WordBytes(l / TWO_32 % TWO_32) + WordBytes(l % TWO_32)
            == seq(8, i requires 0 <= i < 8 => l / Power256(7 - i) % 256)
  {
    LowBytesOf(l);
    LowBytesOf(l / TWO_32);
    DivideTwice(l);
    PowersOf256();
    hide WordBytes, Power256;
  }
}
