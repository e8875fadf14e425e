/** Big-endian numerals in any base, and the in-place multiply-and-add that both
    directions of the Base58 code are built from. */
module Numerals {
  function Pow(b: nat, e: nat): (r: nat)
    ensures b > 0 ==> r > 0
  {
    if e == 0 then 1 else b * Pow(b, e - 1)
  }

  /** The number a digit sequence stands for. */
  function Value(s: seq<nat>, base: nat): nat {
    if s == [] then 0 else Value(s[..|s| - 1], base) * base + s[|s| - 1]
  }

  predicate Below(s: seq<nat>, base: nat) {
    forall i :: 0 <= i < |s| ==> s[i] < base
  }

  /** Quotient and remainder by repeated subtraction, so that no proof has to divide
      by a variable. */
  function Quot(v: nat, base: nat): (q: nat)
    requires base > 1
    ensures q <= v && (v > 0 ==> q < v)
  {
    if v < base then 0 else 1 + Quot(v - base, base)
  }

  function Rem(v: nat, base: nat): (r: nat)
    requires base > 1
    ensures r < base && v == Quot(v, base) * base + r
  {
    if v < base then v
    else
      assert (1 + Quot(v - base, base)) * base == base + Quot(v - base, base) * base;
      Rem(v - base, base)
  }

  /** The `n` low digits of `v`. */
  function Numeral(v: nat, base: nat, n: nat): (s: seq<nat>)
    requires base > 1
    ensures |s| == n && Below(s, base)
  {
    if n == 0 then [] else Numeral(Quot(v, base), base, n - 1) + [Rem(v, base)]
  }

  /** The digits of `v` without leading zeros; zero has none. */
  function Digits(v: nat, base: nat): (s: seq<nat>)
    requires base > 1
    ensures Below(s, base)
    ensures s == [] <==> v == 0
    ensures s != [] ==> s[0] != 0
  {
    if v == 0 then [] else Digits(Quot(v, base), base) + [Rem(v, base)]
  }

  function LeadingZeros(s: seq<nat>): (n: nat)
    ensures n <= |s|
    ensures forall i :: 0 <= i < n ==> s[i] == 0
    ensures n < |s| ==> s[n] != 0
  {
    if s == [] || s[0] != 0 then 0 else 1 + LeadingZeros(s[1..])
  }

  lemma OneLess(q: nat, base: nat)
    requires q > 0
    ensures (q - 1) * base == q * base - base && (q - 1) * base >= 0
  {
  }

  lemma {:induction false} QuotRem(n: nat, q: nat, base: nat, d: nat)
    requires base > 1 && d < base && n == q * base + d
    ensures Quot(n, base) == q && Rem(n, base) == d
    decreases q
  {
    if q > 0 {
      OneLess(q, base);
      QuotRem(n - base, q - 1, base, d);
    }
  }

  lemma Scales(p: nat, q: nat, base: nat)
    ensures p <= q ==> p * base <= q * base
  {
  }

  lemma QuotBelow(q: nat, base: nat, d: nat, p: nat)
    requires q * base + d < base * p
    ensures q < p
  {
  }

  lemma {:induction false} ValueBound(s: seq<nat>, base: nat)
    requires Below(s, base)
    ensures Value(s, base) < Pow(base, |s|)
    decreases |s|
  {
    if s != [] {
      var front := s[..|s| - 1];
      ValueBound(front, base);
      RoomForDigit(Value(front, base), Pow(base, |front|), s[|s| - 1], base);
    }
  }

  lemma RoomForDigit(v: nat, p: nat, d: nat, base: nat)
    requires v < p && d < base
    ensures v * base + d < base * p
  {
    assert (v + 1) * base <= p * base;
  }

  lemma {:induction false} ZerosHaveNoValue(s: seq<nat>, base: nat)
    requires forall i :: 0 <= i < |s| ==> s[i] == 0
    ensures Value(s, base) == 0
    decreases |s|
  {
    if s != [] {
      ZerosHaveNoValue(s[..|s| - 1], base);
    }
  }

  lemma {:induction false} ValueConcat(a: seq<nat>, b: seq<nat>, base: nat)
    ensures Value(a + b, base) == Value(a, base) * Pow(base, |b|) + Value(b, base)
    decreases |b|
  {
    if b == [] {
      assert a + b == a;
    } else {
      var front := b[..|b| - 1];
      ValueConcat(a, front, base);
      assert (a + b)[..|a + b| - 1] == a + front;
      Distribute(Value(a, base), Pow(base, |front|), Value(front, base), base);
    }
  }

  lemma Distribute(x: int, p: int, y: int, base: int)
    ensures (x * p + y) * base == x * (base * p) + y * base
  {
  }

  lemma LastDigit(s: seq<nat>, base: nat)
    requires base > 1 && s != [] && s[|s| - 1] < base
    ensures Quot(Value(s, base), base) == Value(s[..|s| - 1], base)
    ensures Rem(Value(s, base), base) == s[|s| - 1]
  {
    QuotRem(Value(s, base), Value(s[..|s| - 1], base), base, s[|s| - 1]);
  }

  /** Digits that stand for `v` are its numeral. */
  lemma {:induction false} NumeralOfValue(s: seq<nat>, base: nat)
    requires base > 1 && Below(s, base)
    ensures s == Numeral(Value(s, base), base, |s|)
    decreases |s|
  {
    if s != [] {
      NumeralOfValue(s[..|s| - 1], base);
      LastDigit(s, base);
      assert s == s[..|s| - 1] + [s[|s| - 1]];
    }
  }

  lemma {:induction false} ValueOfNumeral(v: nat, base: nat, n: nat)
    requires base > 1 && v < Pow(base, n)
    ensures Value(Numeral(v, base, n), base) == v
    decreases n
  {
    if n > 0 {
      var q := Quot(v, base);
      assert v == q * base + Rem(v, base);
      QuotBelow(q, base, Rem(v, base), Pow(base, n - 1));
      ValueOfNumeral(q, base, n - 1);
    }
  }

  lemma {:induction false} DigitsOfValue(s: seq<nat>, base: nat)
    requires base > 1 && Below(s, base) && (s != [] ==> s[0] != 0)
    ensures s == Digits(Value(s, base), base)
    decreases |s|
  {
    if s != [] {
      DigitsOfValue(s[..|s| - 1], base);
      LastDigit(s, base);
      assert s == s[..|s| - 1] + [s[|s| - 1]];
    }
  }

  lemma {:induction false} ValueOfDigits(v: nat, base: nat)
    requires base > 1
    ensures Value(Digits(v, base), base) == v
    decreases v
  {
    if v > 0 {
      ValueOfDigits(Quot(v, base), base);
      var s := Digits(v, base);
      assert s[..|s| - 1] == Digits(Quot(v, base), base) && s[|s| - 1] == Rem(v, base);
    }
  }

  /** Leading zeros do not count. */
  lemma SkipZeros(s: seq<nat>, k: nat, base: nat)
    requires k <= |s| && forall i :: 0 <= i < k ==> s[i] == 0
    ensures Value(s, base) == Value(s[k..], base)
  {
    ZerosHaveNoValue(s[..k], base);
    ValueConcat(s[..k], s[k..], base);
    assert s == s[..k] + s[k..];
  }

  /** A longer numeral of the same digits is at least as large. */
  lemma PrefixIsLess(s: seq<nat>, k: nat, base: nat)
    requires k <= |s| && base > 0
    ensures Value(s[..k], base) <= Value(s, base)
  {
    ValueConcat(s[..k], s[k..], base);
    assert s == s[..k] + s[k..];
    Grows(Value(s[..k], base), Pow(base, |s[k..]|));
  }

  lemma Grows(x: nat, p: nat)
    requires p > 0
    ensures x * p >= x
  {
  }

  /** One step of multiplying `was` by `m` and adding `add`, from the least digit
      up: `now` agrees with the product from position `j + 1` on, `c` is carried. */
  predicate Partial(was: seq<nat>, now: seq<nat>, base: nat, m: nat, add: nat, j: nat, c: nat)
    requires |was| == |now| && j <= |was|
  {
    Value(now[j..], base) + c * Pow(base, |was| - j) == m * Value(was[j..], base) + add
  }

  lemma PartialStep(was: seq<nat>, now: seq<nat>, base: nat, m: nat, add: nat, j: nat, c: nat, c1: nat)
    requires |was| == |now| && j < |was|
    requires Partial(was, now, base, m, add, j + 1, c)
    requires now[j] + c1 * base == m * was[j] + c
    ensures Partial(was, now, base, m, add, j, c1)
  {
    var p := Pow(base, |was| - j - 1);
    FirstDigit(was[j..], base);
    FirstDigit(now[j..], base);
    assert was[j..][1..] == was[j + 1..] && now[j..][1..] == now[j + 1..];
    var x, y := Value(was[j + 1..], base), Value(now[j + 1..], base);
    Regroup(now[j], c1, base, m, was[j], c, p, x, y, add);
    assert c1 * Pow(base, |was| - j) == c1 * (base * p);
  }

  /** The multiplication is over when no carry is left above zero digits. */
  lemma PartialDone(was: seq<nat>, now: seq<nat>, base: nat, m: nat, add: nat, j: nat)
    requires |was| == |now| && j <= |was| && Partial(was, now, base, m, add, j, 0)
    requires forall k :: 0 <= k < j ==> was[k] == now[k] == 0
    ensures Value(now, base) == m * Value(was, base) + add
  {
    SkipZeros(was, j, base);
    SkipZeros(now, j, base);
  }

  lemma FirstDigit(s: seq<nat>, base: nat)
    requires s != []
    ensures Value(s, base) == s[0] * Pow(base, |s| - 1) + Value(s[1..], base)
  {
    ValueConcat(s[..1], s[1..], base);
    assert s == s[..1] + s[1..];
    assert s[..1] == [s[0]] && s[..1][..0] == [];
    assert Value([s[0]], base) == s[0];
  }

  lemma Regroup(n: int, c1: int, base: int, m: int, w: int, c: int, p: int, x: int, y: int, add: int)
    requires n + c1 * base == m * w + c
    requires y + c * p == m * x + add
    ensures n * p + y + c1 * (base * p) == m * (w * p + x) + add
  {
  }

  lemma PowMonotone(b: nat, m: nat, n: nat)
    requires b > 0 && m <= n
    ensures Pow(b, m) <= Pow(b, n)
    decreases n
  {
  }

  lemma {:induction false} PowAdd(b: nat, m: nat, n: nat)
    ensures Pow(b, m + n) == Pow(b, m) * Pow(b, n)
    decreases m
  {
    if m > 0 {
      PowAdd(b, m - 1, n);
      assert b * (Pow(b, m - 1) * Pow(b, n)) == (b * Pow(b, m - 1)) * Pow(b, n);
    }
  }
}
