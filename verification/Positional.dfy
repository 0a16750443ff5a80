/**
 Positional numerals over an arbitrary base, least significant digit first:
 what a digit sequence denotes, why a numeral without a leading zero is unique,
 and how long it can get.
 */
module Positional {

  function Pow(b: nat, n: nat): (p: nat)
    ensures b > 0 ==> p > 0
  {
    if n == 0 then 1 else b * Pow(b, n - 1)
  }

  /** The number that `d` denotes. */
  function Value(d: seq<nat>, base: nat): (r: nat) {
    if d == [] then 0 else d[0] + base * Value(d[1..], base)
  }

  predicate Digits(d: seq<nat>, base: nat) {
    forall i :: 0 <= i < |d| ==> d[i] < base
  }

  /** Every digit in range and no zero in the most significant place. */
  predicate Canonical(d: seq<nat>, base: nat) {
    Digits(d, base) && (d != [] ==> d[|d| - 1] != 0)
  }

  /** The digits of `v`, by repeated division. */
  function Numeral(v: nat, base: nat): (d: seq<nat>)
    requires base >= 2
    ensures Canonical(d, base)
    decreases v
  {
    if v == 0 then [] else
      Shrinks(v, base);
      [v % base] + Numeral(v / base, base)
  }

  lemma ValueCons(x: nat, rest: seq<nat>, base: nat)
    ensures Value([x] + rest, base) == x + base * Value(rest, base)
  {
    assert ([x] + rest)[1..] == rest;
  }

  lemma DivMod(v: nat, base: nat)
    requires base > 0
    ensures 0 <= v % base < base && v / base >= 0 && v % base + base * (v / base) == v
  {
  }

  /** Its digits denote it. */
  lemma {:induction false} NumeralDenotes(v: nat, base: nat)
    requires base >= 2
    ensures Value(Numeral(v, base), base) == v
    decreases v
  {
    if v > 0 {
      Shrinks(v, base);
      NumeralDenotes(v / base, base);
      ValueCons(v % base, Numeral(v / base, base), base);
      DivMod(v, base);
    }
  }

  lemma Shrinks(v: nat, base: nat)
    requires base >= 2 && v > 0
    ensures 0 <= v / base < v
  {
    MulMono(v / base, 2, base);
    assert v == base * (v / base) + v % base;
  }

  lemma MulMono(k: nat, a: nat, b: nat)
    requires a <= b
    ensures a * k <= b * k && k * a <= k * b
  {
    assert b * k == a * k + (b - a) * k;
  }

  /** The division with remainder has one solution. */
  lemma DivUnique(base: nat, q1: nat, r1: nat, q2: nat, r2: nat)
    requires r1 < base && r2 < base && r1 + base * q1 == r2 + base * q2
    ensures q1 == q2 && r1 == r2
  {
    assert (q1 + 1) * base == base * q1 + base && (q2 + 1) * base == base * q2 + base;
    if q1 < q2 {
      MulMono(base, q1 + 1, q2);
    } else if q2 < q1 {
      MulMono(base, q2 + 1, q1);
    }
  }

  lemma {:induction false} CanonicalPositive(d: seq<nat>, base: nat)
    requires base >= 2 && Canonical(d, base) && d != []
    ensures Value(d, base) > 0
  {
    if |d| > 1 {
      CanonicalPositive(d[1..], base);
      MulMono(Value(d[1..], base), 1, base);
    } else {
      assert Value(d[1..], base) == 0;
    }
  }

  /** A canonical digit sequence is the numeral of its value. */
  lemma NumeralOfValue(d: seq<nat>, base: nat)
    requires base >= 2 && Canonical(d, base)
    ensures d == Numeral(Value(d, base), base)
  {
    NumeralDenotes(Value(d, base), base);
    UniqueNumeral(d, Numeral(Value(d, base), base), base);
  }

  /** A number has one canonical numeral. */
  lemma {:induction false} UniqueNumeral(a: seq<nat>, b: seq<nat>, base: nat)
    requires base >= 2 && Canonical(a, base) && Canonical(b, base)
    requires Value(a, base) == Value(b, base)
    ensures a == b
  {
    if a == [] {
      if b != [] { CanonicalPositive(b, base); }
    } else if b == [] {
      CanonicalPositive(a, base);
    } else {
      DivUnique(base, Value(a[1..], base), a[0], Value(b[1..], base), b[0]);
      UniqueNumeral(a[1..], b[1..], base);
      assert a == [a[0]] + a[1..] && b == [b[0]] + b[1..];
    }
  }

  /** `n` digits denote less than `base ^ n`. */
  lemma {:induction false} ValueBelow(d: seq<nat>, base: nat)
    requires base >= 2 && Digits(d, base)
    ensures Value(d, base) < Pow(base, |d|)
  {
    if d != [] {
      ValueBelow(d[1..], base);
      MulMono(base, Value(d[1..], base) + 1, Pow(base, |d| - 1));
      assert base * (Value(d[1..], base) + 1) == base * Value(d[1..], base) + base;
    }
  }

  /** A canonical numeral of `n` digits denotes at least `base ^ (n - 1)`. */
  lemma {:induction false} ValueAtLeast(d: seq<nat>, base: nat)
    requires base >= 2 && Canonical(d, base) && d != []
    ensures Value(d, base) >= Pow(base, |d| - 1)
  {
    if |d| > 1 {
      ValueAtLeast(d[1..], base);
      MulMono(base, Pow(base, |d| - 2), Value(d[1..], base));
    } else {
      CanonicalPositive(d, base);
    }
  }

  lemma {:induction false} PowAdd(b: nat, m: nat, n: nat)
    ensures Pow(b, m + n) == Pow(b, m) * Pow(b, n)
  {
    if m > 0 {
      PowAdd(b, m - 1, n);
    }
  }

  lemma {:induction false} PowMul(b: nat, m: nat, n: nat)
    ensures Pow(b, m * n) == Pow(Pow(b, m), n)
  {
    if n > 0 {
      PowMul(b, m, n - 1);
      assert m * n == m + m * (n - 1);
      PowAdd(b, m, m * (n - 1));
    }
  }

  lemma PowSwap(b: nat, m: nat, n: nat)
    ensures Pow(Pow(b, m), n) == Pow(Pow(b, n), m)
  {
    PowMul(b, m, n);
    PowMul(b, n, m);
    assert m * n == n * m;
  }

  lemma {:induction false} PowExpMono(b: nat, m: nat, n: nat)
    requires b >= 1 && m <= n
    ensures Pow(b, m) <= Pow(b, n)
  {
    PowAdd(b, m, n - m);
    MulMono(Pow(b, m), 1, Pow(b, n - m));
  }

  lemma {:induction false} PowBaseMono(a: nat, b: nat, n: nat)
    requires a <= b
    ensures Pow(a, n) <= Pow(b, n)
  {
    if n > 0 {
      PowBaseMono(a, b, n - 1);
      MulMono(a, Pow(a, n - 1), Pow(b, n - 1));
      MulMono(Pow(b, n - 1), a, b);
    }
  }

  lemma {:induction false} PowBaseStrict(a: nat, b: nat, n: nat)
    requires a < b && n > 0
    ensures Pow(a, n) < Pow(b, n)
  {
    PowBaseMono(a, b, n - 1);
    MulMono(a, Pow(a, n - 1), Pow(b, n - 1));
    assert b * Pow(b, n - 1) == a * Pow(b, n - 1) + (b - a) * Pow(b, n - 1);
    MulMono(Pow(b, n - 1), 1, b - a);
  }
}
