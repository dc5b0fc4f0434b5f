/** The bitwise operators of an unsigned machine word, on natural numbers.

    A word is a `nat` below 2^64.  The operators are defined bit by bit, and the lemmas say
    what the uses the monitor makes of them amount to in arithmetic.
 */
module Bits {

  function Pow2(k: nat): (p: nat)
    ensures p > 0
  {
    if k == 0 then 1 else 2 * Pow2(k - 1)
  }

  /** x | y */
  function Or(x: nat, y: nat): nat {
    if x == 0 then y
    else if y == 0 then x
    else (if x % 2 == 1 || y % 2 == 1 then 1 else 0) + 2 * Or(x / 2, y / 2)
  }

  /** x & y */
  function And(x: nat, y: nat): nat {
    if x == 0 || y == 0 then 0
    else (if x % 2 == 1 && y % 2 == 1 then 1 else 0) + 2 * And(x / 2, y / 2)
  }

  /** x &^ y */
  function AndNot(x: nat, y: nat): nat {
    if x == 0 || y == 0 then x
    else (if x % 2 == 1 && y % 2 == 0 then 1 else 0) + 2 * AndNot(x / 2, y / 2)
  }

  /** x >> k */
  function Shr(x: nat, k: nat): nat {
    if k == 0 then x else Shr(x / 2, k - 1)
  }

  /** x << k */
  function Shl(x: nat, k: nat): nat {
    if k == 0 then x else 2 * Shl(x, k - 1)
  }

  /** Each bit of the operators is the operation on that bit. */
  lemma {:induction false} BitAt(x: nat, y: nat, k: nat)
    ensures Shr(Or(x, y), k) % 2 == 1 <==> Shr(x, k) % 2 == 1 || Shr(y, k) % 2 == 1
    ensures Shr(And(x, y), k) % 2 == 1 <==> Shr(x, k) % 2 == 1 && Shr(y, k) % 2 == 1
    ensures Shr(AndNot(x, y), k) % 2 == 1 <==> Shr(x, k) % 2 == 1 && Shr(y, k) % 2 == 0
  {
    if x == 0 || y == 0 {
      ShrZero(k);
    }
    if k > 0 {
      Halves(x, y);
      BitAt(x / 2, y / 2, k - 1);
    }
  }

  lemma {:induction false} ShrZero(k: nat)
    ensures Shr(0, k) == 0
  {
    if k > 0 {
      ShrZero(k - 1);
    }
  }

  lemma Halves(x: nat, y: nat)
    ensures Or(x, y) / 2 == Or(x / 2, y / 2)
    ensures And(x, y) / 2 == And(x / 2, y / 2)
    ensures AndNot(x, y) / 2 == AndNot(x / 2, y / 2)
  {
  }

  lemma {:induction false} Pow2Add(j: nat, k: nat)
    ensures Pow2(j + k) == Pow2(j) * Pow2(k)
  {
    if j > 0 {
      Pow2Add(j - 1, k);
    }
  }

  lemma Pow2Low()
    ensures Pow2(0) == 1 && Pow2(1) == 2 && Pow2(2) == 4 && Pow2(7) == 0x80 && Pow2(9) == 0x200 && Pow2(10) == 0x400
  {
  }

  lemma Pow2At8()
    ensures Pow2(8) == 0x100
  {
  }

  lemma Pow2At12()
    ensures Pow2(12) == 0x1000
  {
  }

  lemma Pow2At21()
    ensures Pow2(21) == 0x20_0000
  {
    Pow2Add(9, 12);
    Pow2Low();
    Pow2At12();
  }

  lemma Pow2At36()
    ensures Pow2(36) == 0x10_0000_0000
  {
    Pow2Add(12, 12);
    Pow2Add(12, 24);
    Pow2At12();
  }

  lemma Pow2At41()
    ensures Pow2(41) == 0x200_0000_0000
  {
    Pow2Add(5, 36);
    Pow2At36();
    assert Pow2(5) == 32;
  }

  lemma Pow2At42()
    ensures Pow2(42) == 0x400_0000_0000
  {
    Pow2At41();
  }

  lemma Pow2At51()
    ensures Pow2(51) == 0x8_0000_0000_0000
  {
    Pow2Add(9, 42);
    Pow2At42();
    Pow2Low();
  }

  lemma {:induction false} ShrAdd(x: nat, j: nat, k: nat)
    ensures Shr(x, j + k) == Shr(Shr(x, j), k)
  {
    if j > 0 {
      ShrAdd(x / 2, j - 1, k);
    }
  }

  lemma {:induction false} ShrIsDiv(x: nat, k: nat)
    ensures Shr(x, k) == x / Pow2(k)
  {
    if k > 0 {
      ShrIsDiv(x / 2, k - 1);
      DivDiv(x, Pow2(k - 1));
    }
  }

  lemma DivDiv(x: nat, p: nat)
    requires p > 0
    ensures x / 2 / p == x / (2 * p)
  {
    var q := x / (2 * p);
    var r := x % (2 * p);
    assert x == q * (2 * p) + r;
    assert x / 2 == q * p + r / 2;
    assert r / 2 < p;
    DivUnique(x / 2, p, q, r / 2);
  }

  lemma MulSign(d: int, p: nat)
    ensures d >= 1 ==> d * p >= p
    ensures d <= -1 ==> d * p + p <= 0
  {
    if d >= 1 {
      assert d * p == (d - 1) * p + p;
    } else if d <= -1 {
      assert d * p == (d + 1) * p - p;
    }
  }

  lemma DivUnique(x: nat, p: nat, q: nat, r: nat)
    requires p > 0 && r < p && x == q * p + r
    ensures x / p == q && x % p == r
  {
    var d := x / p - q;
    assert x == (x / p) * p + x % p;
    assert d * p == r - x % p;
    MulSign(d, p);
  }

  lemma {:induction false} ShlIsMul(x: nat, k: nat)
    ensures Shl(x, k) == x * Pow2(k)
  {
    if k > 0 {
      ShlIsMul(x, k - 1);
      assert x * (2 * Pow2(k - 1)) == 2 * (x * Pow2(k - 1));
    }
  }

  /** Setting a clear bit adds it. */
  lemma {:induction false} OrBit(x: nat, k: nat)
    requires Shr(x, k) % 2 == 0
    ensures Or(x, Pow2(k)) == x + Pow2(k)
  {
    if k > 0 && x > 0 {
      OrBit(x / 2, k - 1);
    }
  }

  /** A disjunction, its low k bits apart from the others. */
  lemma {:induction false} OrSplit(x: nat, low: nat, y: nat, low': nat, k: nat)
    requires low < Pow2(k) && low' < Pow2(k)
    ensures Or(Shl(x, k) + low, Shl(y, k) + low') == Shl(Or(x, y), k) + Or(low, low')
  {
    hide Or;
    if k == 0 {
      OrNothing();
    } else {
      OrSplit(x, low / 2, y, low' / 2, k - 1);
      OrTwice(Shl(x, k - 1), low, Shl(y, k - 1), low');
    }
  }

  lemma OrNothing()
    ensures Or(0, 0) == 0
  {
  }

  lemma OrTwice(x: nat, low: nat, y: nat, low': nat)
    ensures Or(2 * x + low, 2 * y + low')
            == (if low % 2 == 1 || low' % 2 == 1 then 1 else 0) + 2 * Or(x + low / 2, y + low' / 2)
    ensures Or(low, low') == (if low % 2 == 1 || low' % 2 == 1 then 1 else 0) + 2 * Or(low / 2, low' / 2)
  {
    OrStep(2 * x + low, 2 * y + low');
    OrStep(low, low');
  }

  /** The definition of `Or`, without its shortcuts. */
  lemma OrStep(x: nat, y: nat)
    ensures Or(x, y) == (if x % 2 == 1 || y % 2 == 1 then 1 else 0) + 2 * Or(x / 2, y / 2)
  {
  }

  /** Masking with k ones is the remainder by 2^k. */
  lemma {:induction false} AndOnes(x: nat, k: nat)
    ensures And(x, Pow2(k) - 1) == x % Pow2(k)
  {
    hide AndNot, And;
    if k == 0 {
      AndNothing(x);
    } else {
      var p := Pow2(k - 1);
      AndOnes(x / 2, k - 1);
      ModHalf(x, p);
      AndStep(x, p);
    }
  }

  lemma AndNothing(x: nat)
    ensures And(x, 0) == 0 && AndNot(x, 0) == x
  {
  }

  lemma AndStep(x: nat, p: nat)
    requires p > 0
    ensures And(x, 2 * p - 1) == x % 2 + 2 * And(x / 2, p - 1)
    ensures AndNot(x, 2 * p - 1) == 2 * AndNot(x / 2, p - 1)
  {
    AllOnes(p);
  }

  lemma AllOnes(p: nat)
    requires p > 0
    ensures (2 * p - 1) % 2 == 1 && (2 * p - 1) / 2 == p - 1
  {
  }

  /** Masking with zeros below bit k masks what is above it. */
  lemma {:induction false} AndAbove(x: nat, y: nat, k: nat)
    ensures And(x, Shl(y, k)) == Shl(And(Shr(x, k), y), k)
  {
    if k > 0 {
      AndAbove(x / 2, y, k - 1);
      if x == 0 || Shl(y, k) == 0 {
        assert And(x / 2, Shl(y, k - 1)) == 0;
      }
    }
  }

  /** Clearing k ones rounds down to a multiple of 2^k. */
  lemma {:induction false} AndNotOnes(x: nat, k: nat)
    ensures AndNot(x, Pow2(k) - 1) == x - x % Pow2(k)
  {
    hide AndNot, And;
    if k == 0 {
      AndNothing(x);
    } else {
      var p := Pow2(k - 1);
      AndNotOnes(x / 2, k - 1);
      ModHalf(x, p);
      AndStep(x, p);
      assert AndNot(x, 2 * p - 1) == 2 * (x / 2 - x / 2 % p);
    }
  }

  lemma ModHalf(x: nat, p: nat)
    requires p > 0
    ensures x % (2 * p) == x % 2 + 2 * (x / 2 % p)
  {
    var q := x / 2 / p;
    assert x / 2 == q * p + x / 2 % p;
    assert x == q * (2 * p) + (x % 2 + 2 * (x / 2 % p));
    DivUnique(x, 2 * p, q, x % 2 + 2 * (x / 2 % p));
  }
}
