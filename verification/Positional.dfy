/** Positional numerals, most significant digit first: the common ground of the
    base58, 8/5-bit and little-endian number codecs. */
module Positional {
  function Pow(b: nat, n: nat): (p: nat)
    ensures b > 0 ==> p > 0
  {
    if n == 0 then 1 else b * Pow(b, n - 1)
  }

  lemma MulMono(a: int, b: int, c: int)
    requires a <= b && 0 <= c
    ensures a * c <= b * c
  {
    assert (b - a) * c >= 0;
  }

  lemma MulAssoc(a: int, b: int, c: int)
    ensures a * (b * c) == (a * b) * c
  {
  }

  lemma {:induction false} PowAdd(b: nat, m: nat, n: nat)
    ensures Pow(b, m + n) == Pow(b, m) * Pow(b, n)
  {
    if m > 0 {
      PowAdd(b, m - 1, n);
      MulAssoc(b, Pow(b, m - 1), Pow(b, n));
    }
  }

  predicate Digits(d: seq<int>, b: nat) {
    forall i :: 0 <= i < |d| ==> 0 <= d[i] < b
  }

  /** Value of a digit string, most significant digit first. */
  function Value(d: seq<int>, b: nat): int {
    if d == [] then 0 else Value(d[..|d| - 1], b) * b + d[|d| - 1]
  }

  lemma Distribute(x: int, p: int, y: int, b: int)
    ensures (x * p + y) * b == x * (b * p) + y * b
  {
  }

  lemma {:induction false} ValueConcat(x: seq<int>, y: seq<int>, b: nat)
    ensures Value(x + y, b) == Value(x, b) * Pow(b, |y|) + Value(y, b)
  {
    if y == [] {
      assert x + y == x;
    } else {
      var y' := y[..|y| - 1];
      assert (x + y)[..|x + y| - 1] == x + y';
      ValueConcat(x, y', b);
      Distribute(Value(x, b), Pow(b, |y'|), Value(y', b), b);
    }
  }

  lemma {:induction false} ValueBound(d: seq<int>, b: nat)
    requires b > 0 && Digits(d, b)
    ensures 0 <= Value(d, b) < Pow(b, |d|)
  {
    if d != [] {
      var d' := d[..|d| - 1];
      ValueBound(d', b);
      OneMoreDigit(Value(d', b), Pow(b, |d'|), b, d[|d| - 1]);
    }
  }

  lemma OneMoreDigit(v: int, p: int, b: nat, x: int)
    requires 0 <= v < p && 0 <= x < b
    ensures 0 <= v * b + x < b * p && 0 <= b * v + x < p * b
  {
    MulMono(0, v, b);
    MulMono(v, p - 1, b);
  }

  /** Leading digit first: a number string splits as (first digit, rest). */
  lemma ValueHead(d: seq<int>, b: nat)
    requires d != []
    ensures Value(d, b) == d[0] * Pow(b, |d| - 1) + Value(d[1..], b)
  {
    assert d == [d[0]] + d[1..];
    ValueConcat([d[0]], d[1..], b);
    assert Value([d[0]], b) == d[0];
  }

  lemma DivModUnique(b: int, q1: int, r1: int, q2: int, r2: int)
    requires 0 < b && 0 <= r1 < b && 0 <= r2 < b
    requires q1 * b + r1 == q2 * b + r2
    ensures q1 == q2 && r1 == r2
  {
    assert (q1 + 1) * b == q1 * b + b && (q2 + 1) * b == q2 * b + b;
    if q1 < q2 {
      MulMono(q1 + 1, q2, b);
      assert false;
    } else if q2 < q1 {
      MulMono(q2 + 1, q1, b);
      assert false;
    }
  }

  /** Equal length and equal value: equal digits. */
  lemma {:induction false} ValueInjective(x: seq<int>, y: seq<int>, b: nat)
    requires b > 0 && Digits(x, b) && Digits(y, b) && |x| == |y|
    requires Value(x, b) == Value(y, b)
    ensures x == y
  {
    if x != [] {
      var x', y' := x[..|x| - 1], y[..|y| - 1];
      DivModUnique(b, Value(x', b), x[|x| - 1], Value(y', b), y[|y| - 1]);
      ValueInjective(x', y', b);
      assert x == x' + [x[|x| - 1]] && y == y' + [y[|y| - 1]];
    }
  }

  /** A numeral without leading zeros. */
  predicate Canonical(d: seq<int>) {
    d != [] ==> d[0] != 0
  }

  lemma CanonicalLower(d: seq<int>, b: nat)
    requires b > 0 && Digits(d, b) && Canonical(d) && d != []
    ensures Pow(b, |d| - 1) <= Value(d, b)
  {
    ValueHead(d, b);
    ValueBound(d[1..], b);
    MulMono(1, d[0], Pow(b, |d| - 1));
  }

  lemma {:induction false} PowMono(b: nat, m: nat, n: nat)
    requires b > 0 && m <= n
    ensures Pow(b, m) <= Pow(b, n)
    decreases n
  {
    if m < n {
      PowMono(b, m, n - 1);
      MulMono(1, b, Pow(b, n - 1));
    }
  }

  /** Two numerals without leading zeros and of equal value are the same numeral. */
  lemma CanonicalUnique(x: seq<int>, y: seq<int>, b: nat)
    requires b > 0 && Digits(x, b) && Digits(y, b) && Canonical(x) && Canonical(y)
    requires Value(x, b) == Value(y, b)
    ensures x == y
  {
    ValueBound(x, b);
    ValueBound(y, b);
    if |x| < |y| {
      CanonicalLower(y, b);
      PowMono(b, |x|, |y| - 1);
      assert false;
    } else if |y| < |x| {
      CanonicalLower(x, b);
      PowMono(b, |y|, |x| - 1);
      assert false;
    }
    ValueInjective(x, y, b);
  }

  lemma {:induction false} ValueZeros(n: nat, b: nat)
    ensures Value(seq(n, i => 0), b) == 0
  {
    if n > 0 {
      assert seq(n, i => 0)[..n - 1] == seq(n - 1, i => 0);
      ValueZeros(n - 1, b);
    }
  }
}
