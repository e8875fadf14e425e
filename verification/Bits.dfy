/** Exclusive or of unsigned numbers, bit by bit. */
module Bits {
  function Xor(a: nat, b: nat): nat {
    if a == 0 && b == 0 then 0 else 2 * Xor(a / 2, b / 2) + (a % 2 + b % 2) % 2
  }

  lemma {:induction false} XorBits(a: nat, b: nat)
    ensures Xor(a, b) / 2 == Xor(a / 2, b / 2) && Xor(a, b) % 2 == (a % 2 + b % 2) % 2
  {
  }

  lemma {:induction false} XorZero(a: nat)
    ensures Xor(a, 0) == a && Xor(a, a) == 0
    decreases a
  {
    if a != 0 {
      XorZero(a / 2);
    }
  }

  lemma {:induction false} XorSwaps(a: nat, b: nat)
    ensures Xor(a, b) == Xor(b, a)
    decreases a + b
  {
    if a != 0 || b != 0 {
      XorSwaps(a / 2, b / 2);
    }
  }

  lemma {:induction false} ZeroXor(z: nat, a: nat)
    requires z == 0
    ensures Xor(z, a) == a
  {
    XorSwaps(z, a);
    XorZero(a);
  }

  lemma {:induction false} ParityRegroups(a: nat, b: nat, c: nat)
    ensures ((a % 2 + b % 2) % 2 + c % 2) % 2 == (a % 2 + (b % 2 + c % 2) % 2) % 2
  {
  }

  lemma SameHalves(x: nat, y: nat)
    requires x / 2 == y / 2 && x % 2 == y % 2
    ensures x == y
  {
  }

  lemma {:induction false} XorRegroups(a: nat, b: nat, c: nat)
    ensures Xor(Xor(a, b), c) == Xor(a, Xor(b, c))
    decreases a + b + c
  {
    if a + b + c > 0 {
      XorRegroups(a / 2, b / 2, c / 2);
      LeftBits(a, b, c);
      RightBits(a, b, c);
      ParityRegroups(a, b, c);
      SameHalves(Xor(Xor(a, b), c), Xor(a, Xor(b, c)));
    }
  }

  lemma {:induction false} LeftBits(a: nat, b: nat, c: nat)
    ensures Xor(Xor(a, b), c) / 2 == Xor(Xor(a / 2, b / 2), c / 2)
    ensures Xor(Xor(a, b), c) % 2 == ((a % 2 + b % 2) % 2 + c % 2) % 2
  {
    XorBits(a, b);
    XorBits(Xor(a, b), c);
  }

  lemma {:induction false} RightBits(a: nat, b: nat, c: nat)
    ensures Xor(a, Xor(b, c)) / 2 == Xor(a / 2, Xor(b / 2, c / 2))
    ensures Xor(a, Xor(b, c)) % 2 == (a % 2 + (b % 2 + c % 2) % 2) % 2
  {
    XorBits(b, c);
    XorBits(a, Xor(b, c));
  }

  /** Applying the same value twice gives the first one back. */
  lemma XorUndoes(a: nat, k: nat)
    ensures Xor(Xor(a, k), k) == a
  {
    XorRegroups(a, k, k);
    XorZero(k);
    XorZero(a);
  }

  function Pow2(n: nat): (p: nat)
    ensures p > 0
  {
    if n == 0 then 1 else 2 * Pow2(n - 1)
  }

  lemma {:induction false} XorBound(a: nat, b: nat, n: nat)
    requires a < Pow2(n) && b < Pow2(n)
    ensures Xor(a, b) < Pow2(n)
    decreases n
  {
    if n > 0 {
      XorBound(a / 2, b / 2, n - 1);
    }
  }

  lemma ComplementHalf(a: nat, p: nat)
    requires a < 2 * p
    ensures (2 * p - 1) / 2 == p - 1 && (2 * p - 1) % 2 == 1
    ensures (2 * p - 1 - a) / 2 == p - 1 - a / 2 && (2 * p - 1 - a) % 2 == (a % 2 + 1) % 2
  {
  }

  /** Exclusive or with all bits set is the complement. */
  lemma {:induction false} XorAllOnes(a: nat, n: nat, b: nat)
    requires a < Pow2(n) == b + 1
    ensures Xor(a, b) == b - a
    decreases n
  {
    if n > 0 {
      var p := Pow2(n - 1);
      ComplementHalf(a, p);
      XorAllOnes(a / 2, n - 1, p - 1);
      XorBits(a, b);
      SameHalves(Xor(a, b), b - a);
    }
  }

  lemma HalfOf(high: nat, q: nat, p: nat)
    requires high == q * (2 * p)
    ensures high % 2 == 0 && high / 2 == q * p
  {
    assert high == 2 * (q * p);
  }

  lemma SumOfHalves(x: nat, high: nat, low: nat)
    requires high % 2 == 0 && x / 2 == high / 2 + low / 2 && x % 2 == low % 2
    ensures x == high + low
  {
  }

  /** A clear low part and a low part are combined without overlap. */
  lemma {:induction false} XorDisjoint(high: nat, q: nat, low: nat, n: nat)
    requires low < Pow2(n) && high == q * Pow2(n)
    ensures Xor(high, low) == high + low
    decreases n
  {
    if n == 0 {
      XorZero(high);
    } else {
      HalfOf(high, q, Pow2(n - 1));
      XorDisjoint(high / 2, q, low / 2, n - 1);
      XorBits(high, low);
      SumOfHalves(Xor(high, low), high, low);
    }
  }
}
