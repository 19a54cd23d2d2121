/** The 32-bit operators of JavaScript on integers (sections 7.1.6 and 7.1.7 of ECMA-262). */
module JsBits {

  const TWO_32 := 0x1_0000_0000

  function Pow2(k: nat): (p: nat)
    ensures p >= 1
  {
    if k == 0 then 1 else 2 * Pow2(k - 1)
  }

  function ToUint32(x: int): (u: nat)
    ensures u < TWO_32
  {
    x % TWO_32
  }

  function ToInt32(x: int): (i: int)
    ensures ToUint32(i) == ToUint32(x)
  {
    var u := ToUint32(x);
    if u >= 0x8000_0000 then u - TWO_32 else u
  }

  function BitAnd(a: nat, b: nat): nat
    decreases a
  {
    if a == 0 then 0 else (if a % 2 == 1 && b % 2 == 1 then 1 else 0) + 2 * BitAnd(a / 2, b / 2)
  }

  function BitOr(a: nat, b: nat): nat
    decreases a + b
  {
    if a == 0 && b == 0 then 0
    else (if a % 2 == 1 || b % 2 == 1 then 1 else 0) + 2 * BitOr(a / 2, b / 2)
  }

  /** `k` places to the left; what passes bit 31 is lost. */
  function ShiftLeft(u: nat, k: nat): (v: nat)
    requires u < TWO_32
    ensures v < TWO_32
    decreases k
  {
    if k == 0 then u else ShiftLeft(2 * u % TWO_32, k - 1)
  }

  /** `k` places to the right, filling with zeros. */
  function ShiftRight(u: nat, k: nat): (v: nat)
    ensures v <= u
    decreases k
  {
    if k == 0 then u else ShiftRight(u / 2, k - 1)
  }

  /** Only the low five bits of a shift count matter. */
  function Count(k: int): nat {
    ToUint32(k) % 32
  }

  /** `x & y` */
  function And(x: int, y: int): int {
    ToInt32(BitAnd(ToUint32(x), ToUint32(y)))
  }

  /** `x | y` */
  function Or(x: int, y: int): int {
    ToInt32(BitOr(ToUint32(x), ToUint32(y)))
  }

  /** `~x` */
  function Not(x: int): int {
    -ToInt32(x) - 1
  }

  /** `x << k` */
  function Shl(x: int, k: int): int {
    ToInt32(ShiftLeft(ToUint32(x), Count(k)))
  }

  /** `x >>> k` */
  function Ushr(x: int, k: int): nat {
    ShiftRight(ToUint32(x), Count(k))
  }

  // ---------------------------------------------------------------------------
  // Low bits and masks
  // ---------------------------------------------------------------------------

  /** The number made of the `k` lowest bits. */
  function LowBits(x: nat, k: nat): (low: nat)
    ensures low <= x
    decreases k
  {
    if k == 0 then 0 else 2 * LowBits(x / 2, k - 1) + x % 2
  }

  lemma {:induction false} Pow2Grows(j: nat, k: nat)
    requires j <= k
    ensures Pow2(j) <= Pow2(k)
  {
    if j == k {
    } else {
      Pow2Grows(j, k - 1);
    }
  }

  lemma Half(q: nat, r: nat)
    requires r < 2
    ensures (2 * q + r) / 2 == q && (2 * q + r) % 2 == r
  {
  }

  lemma {:induction false} LowBitsBound(x: nat, k: nat)
    ensures LowBits(x, k) < Pow2(k)
    decreases k
  {
    if k == 0 {
    } else {
      LowBitsBound(x / 2, k - 1);
    }
  }

  /** A run of low ones keeps the low bits. */
  lemma {:induction false} AndLowOnes(x: nat, k: nat)
    ensures BitAnd(x, Pow2(k) - 1) == LowBits(x, k)
    decreases k
  {
    if k == 0 {
      AndZero(x);
    } else {
      Half(Pow2(k - 1) - 1, 1);
      AndLowOnes(x / 2, k - 1);
    }
  }

  lemma {:induction false} AndZero(x: nat)
    ensures BitAnd(x, 0) == 0
    decreases x
  {
    if x == 0 {
    } else {
      AndZero(x / 2);
    }
  }

  lemma {:induction false} AllLowBits(x: nat, m: nat)
    requires x < Pow2(m)
    ensures LowBits(x, m) == x
    decreases m
  {
    if m == 0 {
    } else {
      AllLowBits(x / 2, m - 1);
    }
  }

  /** A run of high ones clears the low bits. */
  lemma {:induction false} AndHighOnes(x: nat, m: nat, k: nat)
    requires k <= m && x < Pow2(m)
    ensures Pow2(m) >= Pow2(k) && BitAnd(x, Pow2(m) - Pow2(k)) == x - LowBits(x, k)
    decreases m
  {
    Pow2Grows(k, m);
    if k == 0 {
      AllOnesKeep(x, m);
    } else {
      var h := Pow2(m - 1) - Pow2(k - 1);
      AndHighOnes(x / 2, m - 1, k - 1);
      AndEven(x, h);
      assert Pow2(m) - Pow2(k) == 2 * h;
    }
  }

  lemma AllOnesKeep(x: nat, m: nat)
    requires x < Pow2(m)
    ensures BitAnd(x, Pow2(m) - Pow2(0)) == x - LowBits(x, 0)
  {
    AndLowOnes(x, m);
    AllLowBits(x, m);
  }

  lemma AndEven(x: nat, h: nat)
    ensures BitAnd(x, 2 * h) == 2 * BitAnd(x / 2, h)
  {
    Half(h, 0);
    BitAndStep(x, 2 * h);
  }

  lemma BitAndStep(a: nat, b: nat)
    ensures BitAnd(a, b) == (if a % 2 == 1 && b % 2 == 1 then 1 else 0) + 2 * BitAnd(a / 2, b / 2)
  {
    if a == 0 {
      assert BitAnd(0, b / 2) == 0;
    }
  }

  /** A run of low ones fills up a number whose low bits are clear. */
  lemma {:induction false} OrLowOnes(x: nat, k: nat)
    requires LowBits(x, k) == 0
    ensures BitOr(x, Pow2(k) - 1) == x + Pow2(k) - 1
    decreases k
  {
    if k == 0 {
      OrZero(x);
    } else {
      Half(Pow2(k - 1) - 1, 1);
      OrLowOnes(x / 2, k - 1);
    }
  }

  lemma {:induction false} OrZero(x: nat)
    ensures BitOr(x, 0) == x
    decreases x
  {
    if x == 0 {
    } else {
      OrZero(x / 2);
    }
  }

  /** Clearing the low bits leaves the start of an aligned block that ends within the range. */
  lemma {:induction false} BlockStart(x: nat, m: nat, k: nat)
    requires k <= m && x < Pow2(m)
    ensures LowBits(x - LowBits(x, k), k) == 0
    ensures x - LowBits(x, k) + Pow2(k) <= Pow2(m)
    decreases m
  {
    if k == 0 {
    } else {
      BlockStart(x / 2, m - 1, k - 1);
      Half(x / 2 - LowBits(x / 2, k - 1), 0);
    }
  }

  /** Shifting all ones to the left leaves a run of high ones. */
  lemma {:induction false} ShiftOnes(j: nat, k: nat)
    requires j + k <= 32 && Pow2(32) == TWO_32
    ensures Pow2(j) <= TWO_32 && Pow2(j + k) <= TWO_32
    ensures ShiftLeft(TWO_32 - Pow2(j), k) == TWO_32 - Pow2(j + k)
    decreases k
  {
    Pow2Grows(j, 32);
    Pow2Grows(j + k, 32);
    if k == 0 {
    } else {
      Pow2Grows(j + 1, 32);
      DoubleOnes(Pow2(j));
      ShiftOnes(j + 1, k - 1);
    }
  }

  lemma DoubleOnes(p: nat)
    requires 1 <= p && 2 * p <= TWO_32
    ensures 2 * (TWO_32 - p) % TWO_32 == TWO_32 - 2 * p || 2 * p == TWO_32
    ensures 2 * (TWO_32 - p) % TWO_32 == (TWO_32 - 2 * p) % TWO_32
  {
    Wraps(TWO_32 - 2 * p, 1);
  }

  // ---------------------------------------------------------------------------
  // Constants
  // ---------------------------------------------------------------------------

  lemma Pow2Of32()
    ensures Pow2(8) == 0x100 && Pow2(16) == 0x1_0000 && Pow2(24) == 0x100_0000 && Pow2(32) == TWO_32
  {
    assert Pow2(4) == 16;
    assert Pow2(8) == 256;
    assert Pow2(12) == 0x1000;
    assert Pow2(16) == 0x1_0000;
    assert Pow2(20) == 0x10_0000;
    assert Pow2(24) == 0x100_0000;
    assert Pow2(28) == 0x1000_0000;
  }

  lemma RightByByte(x: nat, k: nat)
    ensures ShiftRight(x, k + 8) == ShiftRight(x / 256, k)
  {
    RightByFour(x, k + 4);
    RightByFour(x / 16, k);
    assert x / 16 / 16 == x / 256;
  }

  lemma RightByFour(x: nat, k: nat)
    ensures ShiftRight(x, k + 4) == ShiftRight(x / 16, k)
  {
    assert ShiftRight(x, k + 4) == ShiftRight(x / 2, k + 3);
    assert ShiftRight(x / 2, k + 3) == ShiftRight(x / 2 / 2, k + 2);
    assert ShiftRight(x / 2 / 2, k + 2) == ShiftRight(x / 2 / 2 / 2, k + 1);
    assert ShiftRight(x / 2 / 2 / 2, k + 1) == ShiftRight(x / 2 / 2 / 2 / 2, k);
  }

  lemma Same(u: nat)
    requires u < TWO_32
    ensures ToUint32(u) == u
  {
  }

  lemma SignedBack(u: nat)
    requires u < TWO_32
    ensures ToUint32(ToInt32(u)) == u
    ensures u < 0x8000_0000 ==> ToInt32(u) == u
  {
  }

  lemma NoShift(x: int)
    ensures Ushr(x, 0) == ToUint32(x)
  {
  }

  lemma AndUnsigned(a: nat, b: nat)
    requires a < TWO_32 && b < TWO_32 && BitAnd(a, b) < TWO_32
    ensures Ushr(And(a, b), 0) == BitAnd(a, b)
    ensures BitAnd(a, b) < 0x8000_0000 ==> And(a, b) == BitAnd(a, b)
  {
    Same(a);
    Same(b);
    SignedBack(BitAnd(a, b));
    NoShift(And(a, b));
  }

  lemma OrUnsigned(a: nat, b: nat)
    requires a < TWO_32 && b < TWO_32 && BitOr(a, b) < TWO_32
    ensures Ushr(Or(a, b), 0) == BitOr(a, b)
  {
    Same(a);
    Same(b);
    SignedBack(BitOr(a, b));
    NoShift(Or(a, b));
  }

  lemma DoubleModulo(x: int)
    ensures 2 * ToUint32(x) % TWO_32 == ToUint32(2 * x)
  {
    var q := x / TWO_32;
    assert x == TWO_32 * q + ToUint32(x);
    Wraps(2 * ToUint32(x), 2 * q);
  }

  /** Multiples of 2^32 do not count. */
  lemma Wraps(x: int, q: int)
    ensures (x + TWO_32 * q) % TWO_32 == x % TWO_32
  {
  }

  /** `x` doubled `k` times. */
  function Scale(x: int, k: nat): int
    decreases k
  {
    if k == 0 then x else Scale(2 * x, k - 1)
  }

  /** A left shift doubles modulo 2^32. */
  lemma {:induction false} LeftIsScale(x: int, k: nat)
    ensures ShiftLeft(ToUint32(x), k) == ToUint32(Scale(x, k))
    decreases k
  {
    if k == 0 {
    } else {
      DoubleModulo(x);
      LeftIsScale(2 * x, k - 1);
    }
  }

  lemma ShlValue(x: int, k: nat)
    requires k < 32
    ensures ToUint32(Shl(x, k)) == ToUint32(Scale(x, k))
  {
    LeftIsScale(x, k);
    SignedBack(ShiftLeft(ToUint32(x), k));
    assert Count(k) == k;
  }

  lemma ScaleByFour(x: int, k: nat)
    ensures Scale(x, k + 4) == Scale(16 * x, k)
  {
    assert Scale(x, k + 4) == Scale(2 * x, k + 3);
    assert Scale(2 * x, k + 3) == Scale(4 * x, k + 2);
    assert Scale(4 * x, k + 2) == Scale(8 * x, k + 1);
  }

  lemma ScaleByByte(x: int, k: nat)
    ensures Scale(x, k + 8) == Scale(0x100 * x, k)
  {
    ScaleByFour(x, k + 4);
    ScaleByFour(16 * x, k);
  }

  /** What the three shifts of an address compute. */
  lemma ShiftedBytes(x: int)
    ensures ToUint32(Shl(x, 8)) == ToUint32(0x100 * x)
    ensures ToUint32(Shl(x, 16)) == ToUint32(0x1_0000 * x)
    ensures ToUint32(Shl(x, 24)) == ToUint32(0x100_0000 * x)
  {
    ShlValue(x, 8);
    ShlValue(x, 16);
    ShlValue(x, 24);
    ScaleByBytes(x);
  }

  lemma ScaleByBytes(x: int)
    ensures Scale(x, 8) == 0x100 * x && Scale(x, 16) == 0x1_0000 * x && Scale(x, 24) == 0x100_0000 * x
  {
    ScaleByByte(x, 0);
    ScaleByByte(x, 8);
    ScaleByByte(0x100 * x, 0);
    ScaleByByte(x, 16);
    ScaleByByte(0x100 * x, 8);
    ScaleByByte(0x1_0000 * x, 0);
  }

  lemma ModUnique(x: nat, p: nat, q: nat, r: nat)
    requires p >= 1 && x == p * q + r && r < p
    ensures x % p == r
  {
    var d := x / p - q;
    assert p * d == r - x % p;
    assert d >= 1 ==> p * d >= p;
    assert d <= -1 ==> p * d + p <= 0;
  }

  /** The low bits are the remainder by a power of two. */
  lemma LowBitsIsMod(x: nat, k: nat)
    ensures LowBits(x, k) == x % Pow2(k)
  {
    LowBitsBound(x, k);
    var q := QuotientOf(x, k);
    ModUnique(x, Pow2(k), q, LowBits(x, k));
  }

  lemma LowByte(x: nat)
    ensures LowBits(x, 8) == x % 256
  {
    LowBitsIsMod(x, 8);
    Pow2Of32();
  }

  lemma {:induction false} QuotientOf(x: nat, k: nat) returns (q: nat)
    ensures x == Pow2(k) * q + LowBits(x, k)
    decreases k
  {
    if k == 0 {
      q := x;
    } else {
      q := QuotientOf(x / 2, k - 1);
      assert Pow2(k) * q == 2 * (Pow2(k - 1) * q);
    }
  }
}
