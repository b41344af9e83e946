/** Unsigned machine words as natural numbers: bitwise AND, masks and wrap-around. */
module Bits {

  function Pow2(k: nat): (r: nat)
    ensures r >= 1
  {
    if k == 0 then 1 else 2 * Pow2(k - 1)
  }

  /** Bitwise AND, bit by bit from the lowest. */
  function And(x: nat, y: nat): nat
  {
    if x == 0 || y == 0 then 0
    else 2 * And(x / 2, y / 2) + if x % 2 == 1 && y % 2 == 1 then 1 else 0
  }

  const WORD := 0x1_0000_0000_0000_0000

  /** Unsigned 64-bit wrap-around of an integer. */
  function Wrap64(x: int): (r: nat)
    ensures r < WORD
  {
    x % WORD
  }

  ghost predicate IsPowerOfTwo(n: nat)
  {
    exists k: nat :: n == Pow2(k)
  }

  lemma {:induction false} AndZero(x: nat)
    ensures And(x, 0) == 0
  {
  }

  lemma {:induction false} AndSelf(x: nat)
    ensures And(x, x) == x
  {
    if x != 0 { AndSelf(x / 2); }
  }

  lemma {:induction false} HalveMod(x: nat, m: nat)
    requires m >= 1
    ensures x % (2 * m) == 2 * ((x / 2) % m) + x % 2
  {
    var q, r := (x / 2) / m, (x / 2) % m;
    assert x / 2 == m * q + r;
    assert x == (2 * m) * q + (2 * r + x % 2) by {
      assert (2 * m) * q == 2 * (m * q);
    }
    ModUnique(x, 2 * m, q, 2 * r + x % 2);
  }

  lemma {:induction false} MultipleBound(m: nat, d: int)
    ensures d >= 1 ==> m * d >= m
    ensures d <= -1 ==> m * d + m <= 0
  {
    if d >= 1 {
      assert m * d == m * (d - 1) + m;
    } else if d <= -1 {
      assert m * d == -(m * (-d - 1)) - m;
    }
  }

  lemma {:induction false} ModUnique(x: int, m: nat, q: int, r: int)
    requires m >= 1 && 0 <= r < m && x == m * q + r
    ensures x % m == r
  {
    var q', r' := x / m, x % m;
    assert x == m * q' + r';
    assert m * (q - q') == r' - r by {
      assert m * (q - q') == m * q - m * q';
    }
    MultipleBound(m, q - q');
  }

  lemma AndStep(x: nat, m: nat)
    requires m >= 1
    ensures And(x, 2 * m - 1) == 2 * And(x / 2, m - 1) + x % 2
  {
    assert (2 * m - 1) / 2 == m - 1 && (2 * m - 1) % 2 == 1;
  }

  /** Masking with 2^k - 1 is the remainder modulo 2^k. */
  lemma {:induction false} AndMask(x: nat, k: nat)
    ensures And(x, Pow2(k) - 1) == x % Pow2(k)
  {
    hide And;
    if k == 0 {
      AndZero(x);
    } else {
      AndMask(x / 2, k - 1);
      AndStep(x, Pow2(k - 1));
      HalveMod(x, Pow2(k - 1));
    }
  }

  lemma {:induction false} AndPow2(k: nat)
    ensures And(Pow2(k), Pow2(k) - 1) == 0
  {
    if k > 0 {
      AndPow2(k - 1);
      assert (Pow2(k) - 1) / 2 == Pow2(k - 1) - 1;
    }
  }

  /** The queue's static assertion accepts exactly the powers of two. */
  lemma {:induction false} PowerOfTwoTest(n: nat)
    requires n >= 1
    ensures And(n, n - 1) == 0 <==> IsPowerOfTwo(n)
  {
    if IsPowerOfTwo(n) {
      var k: nat :| n == Pow2(k);
      AndPow2(k);
    }
    if And(n, n - 1) == 0 {
      var k := ZeroTestWitness(n);
    }
  }

  lemma {:induction false} ZeroTestWitness(n: nat) returns (k: nat)
    requires n >= 1 && And(n, n - 1) == 0
    ensures n == Pow2(k)
  {
    if n == 1 {
      k := 0;
    } else if n % 2 == 1 {
      assert (n - 1) / 2 == n / 2;
      AndSelf(n / 2);
      assert false;
    } else {
      assert (n - 1) / 2 == n / 2 - 1;
      k := ZeroTestWitness(n / 2);
      k := k + 1;
    }
  }

  lemma {:induction false} Pow2Monotone(j: nat, k: nat)
    requires j <= k
    ensures Pow2(k) == Pow2(j) * Pow2(k - j)
  {
    if j > 0 { Pow2Monotone(j - 1, k - 1); }
  }

  lemma Pow2At64()
    ensures Pow2(64) == WORD
  {
    assert Pow2(8) == 256;
    Pow2Monotone(8, 16);
    Pow2Monotone(16, 32);
    Pow2Monotone(32, 64);
  }

  lemma {:induction false} Pow2Order(k: nat)
    requires Pow2(k) <= WORD
    ensures k <= 64
  {
    Pow2At64();
    if k > 64 {
      Pow2Monotone(64, k);
    }
  }

  lemma {:induction false} ModOfMod(x: int, m: nat, c: nat)
    requires m >= 1 && c >= 1
    ensures (x % (m * c)) % m == x % m
  {
    var q, r := x / (m * c), x % (m * c);
    var q', r' := r / m, r % m;
    assert x == (m * c) * q + m * q' + r';
    assert (m * c) * q == m * (c * q);
    assert m * (c * q) + m * q' == m * (c * q + q');
    ModUnique(x, m, c * q + q', r');
  }

  /** Wrapped 64-bit index arithmetic followed by the mask is exact arithmetic modulo n. */
  lemma {:induction false} MaskedIndex(x: int, n: nat)
    requires 1 <= n <= WORD && And(n, n - 1) == 0
    ensures And(Wrap64(x), n - 1) == Rem(x, n)
  {
    PowerOfTwoTest(n);
    var k: nat :| n == Pow2(k);
    Pow2Order(k);
    AndMask(Wrap64(x), k);
    Pow2Monotone(k, 64);
    Pow2At64();
    ModOfMod(x, n, Pow2(64 - k));
  }

  // ---- Ring indices: absolute positions taken modulo the ring size ----

  function Rem(x: int, n: nat): (r: nat)
    requires n >= 1
    ensures r < n
  {
    x % n
  }

  /** Reducing an operand first does not change a remainder. */
  lemma {:induction false} RemShift(a: int, b: int, n: nat)
    requires n >= 1
    ensures Rem(Rem(a, n) + b, n) == Rem(a + b, n)
    ensures Rem(b - Rem(a, n), n) == Rem(b - a, n)
  {
    var q := a / n;
    assert a == n * q + a % n;
    var q1, q2 := (a % n + b) / n, (b - a % n) / n;
    assert a + b == n * (q + q1) + (a % n + b) % n by { assert n * (q + q1) == n * q + n * q1; }
    ModUnique(a + b, n, q + q1, (a % n + b) % n);
    assert b - a == n * (q2 - q) + (b - a % n) % n by { assert n * (q2 - q) == n * q2 - n * q; }
    ModUnique(b - a, n, q2 - q, (b - a % n) % n);
  }

  lemma RemSmall(x: nat, n: nat)
    requires n >= 1
    ensures x < n ==> Rem(x, n) == x
    ensures x < n ==> Rem(x + n, n) == x
    ensures x < n ==> Rem(x - n, n) == x
  {
    if x < n {
      ModUnique(x, n, 0, x);
      ModUnique(x + n, n, 1, x);
      ModUnique(x - n, n, -1, x);
    }
  }

  lemma {:induction false} RemStep(x: int, n: nat)
    requires n >= 1
    ensures Rem(x + n, n) == Rem(x, n)
  {
    assert x + n == n * (x / n + 1) + x % n;
    ModUnique(x + n, n, x / n + 1, x % n);
  }

  /** Two positions less than one lap apart never share a slot. */
  lemma {:induction false} RemDistance(a: int, b: int, n: nat)
    requires n >= 1 && a <= b < a + n
    ensures Rem(Rem(b, n) - Rem(a, n), n) == b - a
    ensures Rem(a, n) == Rem(b, n) <==> a == b
  {
    hide Rem;
    RemShift(a, Rem(b, n), n);
    RemShift(b, -a, n);
    RemSmall(b - a, n);
    RemSmall(0, n);
  }
}
