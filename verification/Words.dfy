/**
 Machine words: powers of two, bitwise and, 32-bit wrap-around and the signed
 reading of a 32-bit difference.
 */
module Words {

  const WORD: nat := 0x1_0000_0000
  const HALF: nat := 0x8000_0000

  function Pow2(k: nat): (r: nat)
    ensures r >= 1
  {
    if k == 0 then 1 else 2 * Pow2(k - 1)
  }

  /** Bitwise and of two unsigned numbers of any width. */
  function And(a: nat, b: nat): nat
  {
    if a == 0 || b == 0 then 0
    else (if a % 2 == 1 && b % 2 == 1 then 1 else 0) + 2 * And(a / 2, b / 2)
  }

  /** Storing a counter in a uint32_t. */
  function Wrap(x: int): (r: nat)
    ensures r < WORD
  {
    x % WORD
  }

  /** `(int32_t)a - (int32_t)b`: the difference modulo 2^32, read in two's complement. */
  function SignedDiff(a: nat, b: nat): int {
    var d := Wrap(a - b);
    if d < HALF then d else d - WORD
  }

  lemma DivModUnique(x: nat, q: nat, r: nat, m: nat)
    requires x == q * m + r && r < m
    ensures x / m == q && x % m == r
  {
    var d: int := x / m - q;
    assert d * m == (x / m) * m - q * m;
    assert d * m == r - x % m;
    MultipleIsFar(d, m);
  }

  lemma MultipleIsFar(d: int, m: int)
    requires m > 0
    ensures d >= 1 ==> d * m >= m
    ensures d <= -1 ==> d * m <= -m
  {
  }

  /** Numbers less than m apart leave different remainders. */
  lemma RemaindersDiffer(p: nat, q: nat, m: nat)
    requires m > 0 && p != q && -(m as int) < p - q < m
    ensures p % m != q % m
  {
    var d: int := p / m - q / m;
    assert d * m == (p / m) * m - (q / m) * m;
    assert p - q == d * m + (p % m - q % m);
    MultipleIsFar(d, m);
  }

  lemma RemainderRecurs(p: nat, m: nat)
    requires m > 0
    ensures (p + m) % m == p % m
  {
    assert (p / m + 1) * m == (p / m) * m + m;
    DivModUnique(p + m, p / m + 1, p % m, m);
  }

  /** The one number of [base, base + m) with the remainder of x; it is a multiple of m away. */
  lemma MulPlus(a: int, b: int, m: int)
    ensures (a + b) * m == a * m + b * m
  {
  }

  lemma RemainderInWindow(x: nat, base: nat, m: nat) returns (w: nat, d: int)
    requires m > 0
    ensures base <= w < base + m
    ensures w % m == x % m
    ensures w == x + d * m
  {
    var b, r := base / m, x % m;
    var c := if b * m + r >= base then b else b + 1;
    MulPlus(b, 1, m);
    assert base == b * m + base % m && x == (x / m) * m + r;
    w := c * m + r;
    d := c - x / m;
    DivModUnique(w, c, r, m);
    MulPlus(c, -(x / m), m);
  }

  /** Doubling the modulus adds one low bit to the remainder. */
  lemma RemainderOfDouble(x: nat, p: nat)
    requires p >= 1
    ensures x % (2 * p) == 2 * ((x / 2) % p) + x % 2
  {
    var y := x / 2;
    var q, r := y / p, y % p;
    assert y == q * p + r;
    assert q * (2 * p) == 2 * (q * p);
    DivModUnique(x, q, 2 * r + x % 2, 2 * p);
  }

  /** `x & (2^k - 1)` is the remainder of x modulo 2^k. */
  lemma {:induction false} MaskIsRemainder(x: nat, k: nat)
    ensures And(x, Pow2(k) - 1) == x % Pow2(k)
  {
    if k > 0 {
      var p := Pow2(k - 1);
      MaskIsRemainder(x / 2, k - 1);
      RemainderOfDouble(x, p);
      AndOddMask(x, p);
    }
  }

  lemma AndOddMask(x: nat, p: nat)
    requires p >= 1
    ensures And(x, 2 * p - 1) == x % 2 + 2 * And(x / 2, p - 1)
  {
    var m := 2 * p - 1;
    assert m / 2 == p - 1 && m % 2 == 1;
  }

  lemma {:induction false} AndSelf(a: nat)
    ensures And(a, a) == a
  {
    if a > 0 { AndSelf(a / 2); }
  }

  ghost predicate IsPow2(c: nat) {
    exists k: nat :: c == Pow2(k)
  }

  lemma Pow2Half(c: nat)
    requires c >= 2 && c % 2 == 0
    ensures IsPow2(c) <==> IsPow2(c / 2)
  {
    if IsPow2(c) {
      var k: nat :| c == Pow2(k);
      assert k > 0;
      assert c / 2 == Pow2(k - 1);
    }
    if IsPow2(c / 2) {
      var k: nat :| c / 2 == Pow2(k);
      assert c == Pow2(k + 1);
    }
  }

  /** The test `(c & (c - 1)) == 0` holds of a positive c exactly when c is a power of two. */
  lemma {:induction false} PowerOfTwoTest(c: nat)
    requires c > 0
    ensures And(c, c - 1) == 0 <==> IsPow2(c)
  {
    if c == 1 {
      assert c == Pow2(0);
    } else if c % 2 == 1 {
      AndSelf(c / 2);
      assert (c - 1) / 2 == c / 2;
      forall k: nat ensures c != Pow2(k) {
        if k > 0 { assert Pow2(k) == 2 * Pow2(k - 1); }
      }
    } else {
      PowerOfTwoTest(c / 2);
      Pow2Half(c);
      assert (c - 1) / 2 == c / 2 - 1;
      assert And(c, c - 1) == 2 * And(c / 2, c / 2 - 1);
    }
  }

  lemma {:induction false} Pow2Mono(i: nat, j: nat)
    requires i <= j
    ensures Pow2(i) <= Pow2(j)
  {
    if i < j { Pow2Mono(i, j - 1); }
  }

  lemma {:induction false} Pow2Split(i: nat, j: nat)
    ensures Pow2(i + j) == Pow2(i) * Pow2(j)
  {
    if i > 0 {
      Pow2Split(i - 1, j);
      calc {
        Pow2(i + j);
        2 * Pow2(i - 1 + j);
        2 * (Pow2(i - 1) * Pow2(j));
        2 * Pow2(i - 1) * Pow2(j);
      }
    }
  }

  lemma WordIsPow2()
    ensures Pow2(32) == WORD && Pow2(31) == HALF
  {
    assert Pow2(8) == 256;
    Pow2Split(8, 8);
    Pow2Split(16, 16);
  }

  lemma RemainderOfRemainder(x: nat, c: nat, d: nat)
    requires c >= 1 && d >= 1
    ensures c * d >= 1
    ensures (x % (c * d)) % c == x % c
  {
    assert c * d >= 1;
    var a, w := x / (c * d), x % (c * d);
    var b, r := w / c, w % c;
    assert x == a * (c * d) + w;
    assert w == b * c + r;
    assert (a * d + b) * c == a * (c * d) + b * c;
    DivModUnique(x, a * d + b, r, c);
  }

  /** Reducing modulo 2^32 first does not change the remainder modulo a smaller power of two. */
  lemma WrapKeepsRemainder(x: nat, k: nat)
    requires k <= 32
    ensures Wrap(x) % Pow2(k) == x % Pow2(k)
  {
    WordIsPow2();
    Pow2Split(k, 32 - k);
    RemainderOfRemainder(x, Pow2(k), Pow2(32 - k));
  }

  /** The signed 32-bit difference of two wrapped counters is their true difference when that fits. */
  lemma WrappedDiff(a: nat, b: nat)
    requires -(HALF as int) <= a - b < HALF
    ensures SignedDiff(Wrap(a), Wrap(b)) == a - b
  {
    var qa, qb := a / WORD, b / WORD;
    assert a == qa * WORD + Wrap(a) && b == qb * WORD + Wrap(b);
    assert Wrap(a) - Wrap(b) == (a - b) - (qa - qb) * WORD;
  }

  /** Two counters less than 2^32 apart are equal exactly when their wrapped values are. */
  lemma WrapInjective(a: nat, b: nat)
    requires -(WORD as int) < a - b < WORD
    ensures Wrap(a) == Wrap(b) <==> a == b
  {
    assert a == (a / WORD) * WORD + Wrap(a) && b == (b / WORD) * WORD + Wrap(b);
  }
}
