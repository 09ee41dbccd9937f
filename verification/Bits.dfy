// Bits of natural numbers: powers of two, bitwise OR, and the C shifts.
module Bits {
  import opened Prelude

  function Pow2(k: nat): (p: nat)
    ensures p > 0
  {
    if k == 0 then 1 else 2 * Pow2(k - 1)
  }

  // v * 2^k and v mod 2^k.
  function Shifted(v: nat, k: nat): nat {
    v * Pow2(k)
  }

  function LowBits(v: nat, k: nat): nat {
    v % Pow2(k)
  }

  lemma {:induction false} Pow2Add(j: nat, k: nat)
    ensures Pow2(j + k) == Pow2(j) * Pow2(k)
  {
    if j > 0 {
      Pow2Add(j - 1, k);
      assert Pow2(j) * Pow2(k) == 2 * (Pow2(j - 1) * Pow2(k));
    }
  }

  lemma Pow2Values()
    ensures Pow2(21) == 0x20_0000 && Pow2(43) == 0x800_0000_0000 && Pow2(32) == TWO32 && Pow2(64) == TWO64
    ensures Pow2(6) == 64 && Pow2(2) == 4 && Pow2(1) == 2
    ensures Pow2(96) == TWO64 * TWO32
  {
    assert Pow2(10) == 0x400;
    Pow2Add(10, 10);
    assert Pow2(20) == 0x10_0000;
    Pow2Add(1, 20);
    Pow2Add(20, 20);
    Pow2Add(40, 3);
    Pow2Add(20, 12);
    Pow2Add(10, 2);
    Pow2Add(32, 32);
    Pow2Add(64, 32);
  }

  lemma DivMod(x: int, q: int, m: int, r: int)
    requires m > 0 && x == q * m + r && 0 <= r < m
    ensures x / m == q && x % m == r
  {
    var d := x / m - q;
    assert d * m == r - x % m by {
      assert x == (x / m) * m + x % m;
      assert d * m == (x / m) * m - q * m;
    }
    assert d >= 1 ==> d * m >= m;
    assert d <= -1 ==> d * m <= -m;
  }

  // Bitwise OR.
  function Or(a: nat, b: nat): nat {
    if a == 0 then b
    else if b == 0 then a
    else 2 * Or(a / 2, b / 2) + if a % 2 == 1 || b % 2 == 1 then 1 else 0
  }

  // Bitwise AND.
  function And(a: nat, b: nat): nat {
    if a == 0 || b == 0 then 0
    else 2 * And(a / 2, b / 2) + if a % 2 == 1 && b % 2 == 1 then 1 else 0
  }

  // ANDing with 2^k - 1 keeps the low k bits.
  lemma {:induction false} AndMask(a: nat, k: nat)
    ensures And(a, Pow2(k) - 1) == a % Pow2(k)
  {
    hide And;
    if a == 0 || k == 0 {
      AndStep(a, Pow2(k) - 1);
    } else {
      AndMask(a / 2, k - 1);
      HalfOfMask(k);
      ModOfHalf(a, Pow2(k - 1));
      AndStep(a, Pow2(k) - 1);
    }
  }

  lemma HalfOfMask(k: nat)
    requires k > 0
    ensures Pow2(k) == 2 * Pow2(k - 1) && (Pow2(k) - 1) / 2 == Pow2(k - 1) - 1 && (Pow2(k) - 1) % 2 == 1
  {
  }

  lemma ModOfHalf(a: nat, h: nat)
    requires h > 0
    ensures a % (2 * h) == 2 * (a / 2 % h) + a % 2
  {
    var q, r := a / 2 / h, a / 2 % h;
    assert a / 2 == q * h + r;
    assert q * (2 * h) == 2 * (q * h);
    DivMod(a, q, 2 * h, 2 * r + a % 2);
  }

  // OR works on the two halves of its operands separately.
  lemma {:induction false} OrSplit(a: nat, b: nat, c: nat, d: nat, k: nat)
    requires a < Pow2(k) && c < Pow2(k)
    ensures Or(a + b * Pow2(k), c + d * Pow2(k)) == Or(a, c) + Or(b, d) * Pow2(k)
    ensures Or(a, c) < Pow2(k)
  {
    hide Or;
    if k == 0 {
      OrStep(0, 0);
    } else {
      var h := Pow2(k - 1);
      OrSplit(a / 2, b, c / 2, d, k - 1);
      Halve(a, b, h);
      Halve(c, d, h);
      OrStep(a + b * (2 * h), c + d * (2 * h));
      OrStep(a, c);
      assert Or(b, d) * (2 * h) == 2 * (Or(b, d) * h);
    }
  }

  lemma Halve(a: nat, b: nat, h: nat)
    ensures (a + b * (2 * h)) / 2 == a / 2 + b * h && (a + b * (2 * h)) % 2 == a % 2
  {
    assert b * (2 * h) == 2 * (b * h);
  }

  lemma AndStep(a: nat, b: nat)
    ensures And(a, b) == 2 * And(a / 2, b / 2) + if a % 2 == 1 && b % 2 == 1 then 1 else 0
    ensures a == 0 || b == 0 ==> And(a, b) == 0
  {
  }

  lemma OrStep(a: nat, b: nat)
    ensures Or(a, b) == 2 * Or(a / 2, b / 2) + if a % 2 == 1 || b % 2 == 1 then 1 else 0
  {
  }

  // Below the lowest set bit of the other operand, OR adds.
  lemma OrAbove(a: nat, b: nat, k: nat)
    requires a < Pow2(k)
    ensures Or(a, b * Pow2(k)) == a + b * Pow2(k)
  {
    OrSplit(a, 0, 0, b, k);
    assert Or(a, 0) == a;
  }

  lemma Division(x: nat, m: nat) returns (q: nat, r: nat)
    requires m > 0
    ensures q == x / m && r == x % m && r < m && x == q * m + r
  {
    q, r := x / m, x % m;
  }

  lemma ProductGrows(x: nat, m: nat)
    requires m > 0
    ensures x <= x * m
  {
    assert x * m == x * (m - 1) + x;
  }

  lemma ProductBelow(r: nat, m: nat, p: nat)
    requires r < m && p > 0
    ensures r * p < m * p
  {
    assert m * p == r * p + (m - r) * p;
    ProductGrows(p, m - r);
  }

  // C shifts of 64-bit values: undefined from 64 on.
  function Shl64(x: u64, k: nat): u64
    requires k < 64
  {
    (x * Pow2(k)) % TWO64
  }

  function Shr64(x: u64, k: nat): (y: u64)
    requires k < 64
  {
    Shrinks(x, Pow2(k));
    x / Pow2(k)
  }

  lemma Shrinks(x: nat, m: nat)
    requires m > 0
    ensures 0 <= x / m <= x
  {
    var q, r := Division(x, m);
    ProductGrows(q, m);
  }

  // Bits [pos, pos + width) of a number.
  function Field(image: nat, pos: nat, width: nat): (v: nat)
    ensures v < Pow2(width)
  {
    image / Pow2(pos) % Pow2(width)
  }
}
