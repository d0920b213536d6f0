/** convertBits (address.js): regrouping a byte string into 5-bit groups and back, with an accumulator
    that wraps at 32 bits and is never masked. */
module BitGroups {
  import opened Common
  import opened Positional

  const WORD := 0x1_0000_0000

  /** Bits per group, as the two callers use it. */
  type Width = w: nat | 1 <= w <= 8 witness 8

  /** The n-digit numeral of v, most significant first. */
  function Numeral(v: nat, b: nat, n: nat): (d: seq<int>)
    requires b > 0
    ensures |d| == n && Digits(d, b)
    decreases n, v
  {
    if n == 0 then [] else Numeral(v / b, b, n - 1) + [v % b]
  }

  lemma Append(d: seq<int>, x: int, b: nat)
    ensures Value(d + [x], b) == Value(d, b) * b + x
  {
    assert (d + [x])[..|d|] == d;
  }

  lemma {:induction false} NumeralValue(v: nat, b: nat, n: nat)
    requires b > 0 && v < Pow(b, n)
    ensures Value(Numeral(v, b, n), b) == v
    decreases n
  {
    if n > 0 {
      DivBound(v, b, Pow(b, n - 1));
      NumeralValue(v / b, b, n - 1);
      NumeralLast(v, b, n);
    }
  }

  lemma NumeralLast(v: nat, b: nat, n: nat)
    requires b > 0 && n > 0 && Value(Numeral(v / b, b, n - 1), b) == v / b
    ensures Value(Numeral(v, b, n), b) == v
  {
    Division(v, b);
    LastDigit(Numeral(v / b, b, n - 1), v / b, v % b, b, v);
  }

  lemma LastDigit(d: seq<int>, q: nat, r: nat, b: nat, v: nat)
    requires Value(d, b) == q && v == q * b + r
    ensures Value(d + [r], b) == v
  {
    Append(d, r, b);
  }

  lemma DivBound(v: nat, b: nat, p: nat)
    requires b > 0 && v < b * p
    ensures v / b < p
  {
    if v / b >= p {
      MulMono(p, v / b, b);
      assert false;
    }
  }

  function Unit(w: nat): (p: nat)
    ensures p > 0
  {
    Pow(2, w)
  }

  /** What convertBits owes its caller: the same number in wider or narrower digits, shifted up to a whole
      digit when padding, and refused when whole digits would drop more than short zero padding. v is the
      number, n and rem the whole groups and the bits left over. */
  predicate Regrouping(v: nat, n: nat, rem: nat, from: Width, to: Width, pad: bool, r: Option<seq<int>>)
    requires rem < to
  {
    if pad then
      && r.Some? && Digits(r.value, Unit(to)) && |r.value| == (if rem == 0 then n else n + 1)
      && Value(r.value, Unit(to)) == if rem == 0 then v else v * Unit(to - rem)
    else if rem >= from || v % Unit(rem) != 0 then r == None
    else r.Some? && Digits(r.value, Unit(to)) && |r.value| == n && Value(r.value, Unit(to)) == v / Unit(rem)
  }

  function Regroup(data: seq<int>, from: Width, to: Width, pad: bool): Option<seq<int>>
    requires Digits(data, Unit(from))
  {
    RegroupNumber(Number(data, Unit(from)), from * |data|, from, to, pad)
  }

  function RegroupNumber(v: nat, total: nat, from: Width, to: Width, pad: bool): Option<seq<int>> {
    RegroupParts(v, total / to, total % to, from, to, pad)
  }

  function RegroupParts(v: nat, n: nat, rem: nat, from: Width, to: Width, pad: bool): Option<seq<int>>
    requires rem < to
  {
    if pad then Some(if rem == 0 then Numeral(v, Unit(to), n) else Numeral(v * Unit(to - rem), Unit(to), n + 1))
    else if rem >= from || v % Unit(rem) != 0 then None
    else Some(Numeral(v / Unit(rem), Unit(to), n))
  }

  /** There is one right answer. */
  lemma RegroupingUnique(v: nat, n: nat, rem: nat, from: Width, to: Width, pad: bool, r: Option<seq<int>>, s: Option<seq<int>>)
    requires rem < to && Regrouping(v, n, rem, from, to, pad, r) && Regrouping(v, n, rem, from, to, pad, s)
    ensures r == s
  {
    if r.Some? {
      ValueInjective(r.value, s.value, Unit(to));
    }
  }

  function Number(data: seq<int>, b: nat): (v: nat)
    requires b > 0 && Digits(data, b)
    ensures v == Value(data, b)
  {
    ValueBound(data, b);
    Value(data, b)
  }

  // ---- arithmetic of shifts ----

  lemma UnitAdd(a: nat, b: nat)
    ensures Unit(a + b) == Unit(a) * Unit(b)
  {
    PowAdd(2, a, b);
  }

  /** Adding whole multiples shifts the quotient and leaves the remainder. */
  lemma DivShift(k: nat, a: nat, r: nat)
    requires a > 0
    ensures (k * a + r) / a == k + r / a && (k * a + r) % a == r % a
  {
    var x := k * a + r;
    assert (k + r / a) * a == k * a + r / a * a;
    DivModUnique(a, x / a, x % a, k + r / a, r % a);
  }

  lemma DivStep(v: nat, p: nat, b: nat)
    requires p > 0 && b < p
    ensures (v * p + b) / p == v && (v * p + b) % p == b
  {
    DivShift(v, p, b);
  }

  lemma DivDiv(x: nat, a: nat, b: nat)
    requires a > 0 && b > 0
    ensures a * b > 0 && (x / a) / b == x / (a * b)
  {
    var q, r := x / a, x % a;
    Recompose(q / b, q % b, r, a, b);
    Nested(q % b, r, a, b);
    assert q / b * b + q % b == q;
    DivModUnique(a * b, x / (a * b), x % (a * b), q / b, q % b * a + r);
  }

  lemma Recompose(q2: nat, r2: nat, r: nat, a: nat, b: nat)
    ensures (q2 * b + r2) * a + r == q2 * (a * b) + (r2 * a + r)
  {
  }

  lemma Nested(r2: nat, r: nat, a: nat, b: nat)
    requires r2 < b && r < a
    ensures 0 <= r2 * a + r < a * b
  {
    MulMono(r2, b - 1, a);
    MulMono(0, r2, a);
    assert (b - 1) * a == b * a - a;
  }

  lemma Shuffle(k: nat, a: nat, b: nat, c: nat)
    ensures k * (a * b * c) == k * c * b * a
  {
  }

  lemma ProductPositive(a: nat, b: nat)
    requires a > 0 && b > 0
    ensures a * b > 0
  {
  }

  /** Bits below a wrap that is a whole number of digits higher are not disturbed by it. */
  lemma WrapKeeps(x: nat, a: nat, b: nat, c: nat)
    requires a > 0 && b > 0 && c > 0
    ensures a * b > 0 && a * b * c > 0 && (x % (a * b * c)) / a % b == x / a % b
  {
    ProductPositive(a, b);
    ProductPositive(a * b, c);
    var m := a * b * c;
    var k, r := x / m, x % m;
    Shuffle(k, a, b, c);
    KeepsDigit(x, k * c, r, a, b);
  }

  lemma KeepsDigit(x: nat, j: nat, r: nat, a: nat, b: nat)
    requires a > 0 && b > 0 && x == j * b * a + r
    ensures x / a % b == r / a % b
  {
    DivShift(j * b, a, r);
    DivShift(j, b, r / a);
  }

  /** acc stays the low 32 bits of the whole number. */
  lemma WrapStep(v: nat, acc: nat, p: nat, b: nat)
    requires acc == v % WORD
    ensures (acc * p + b) % WORD == (v * p + b) % WORD
  {
    WrapStepFor(v, acc, p, b, WORD);
  }

  lemma WrapStepFor(v: nat, acc: nat, p: nat, b: nat, w: nat)
    requires w > 0 && acc == v % w
    ensures (acc * p + b) % w == (v * p + b) % w
  {
    var k := v / w;
    assert v == k * w + acc;
    Spread(k, w, acc, p);
    DivShift(k * p, w, acc * p + b);
  }

  lemma Spread(k: nat, w: nat, acc: nat, p: nat)
    ensures (k * w + acc) * p == k * p * w + acc * p
  {
  }

  lemma UnitWord()
    ensures Unit(32) == WORD && Unit(8) == 256 && Unit(5) == 32
  {
    assert Pow(2, 8) == 256 && Pow(2, 5) == 32;
    UnitAdd(8, 8);
    UnitAdd(16, 16);
  }

  lemma WordSplit(bits: nat, to: nat)
    requires bits + to <= 32
    ensures WORD == Unit(bits) * Unit(to) * Unit(32 - bits - to)
  {
    UnitAdd(bits, to);
    UnitAdd(bits + to, 32 - bits - to);
    UnitWord();
  }

  /** Shifting a group in leaves the groups already cut off alone. */
  lemma ShiftIn(v: nat, from: nat, b: nat, bits: nat)
    requires b < Unit(from)
    ensures (v * Unit(from) + b) / Unit(bits + from) == v / Unit(bits)
  {
    DivStep(v, Unit(from), b);
    DivDiv(v * Unit(from) + b, Unit(from), Unit(bits));
    UnitAdd(from, bits);
  }

  lemma NextDigit(v: nat, a: nat, b: nat, c: nat)
    requires a > 0 && b > 0 && c > 0
    ensures a * b > 0 && a * b * c > 0 && v / a == v / (a * b) * b + v % (a * b * c) / a % b
  {
    WrapKeeps(v, a, b, c);
    DivDiv(v, a, b);
  }

  /** The next group out of the accumulator is the next digit of the whole number. */
  lemma ShiftOut(v: nat, acc: nat, bits: nat, to: nat)
    requires acc == v % WORD && bits + to <= 32
    ensures v / Unit(bits) == v / Unit(bits + to) * Unit(to) + acc / Unit(bits) % Unit(to)
  {
    WordSplit(bits, to);
    NextDigit(v, Unit(bits), Unit(to), Unit(32 - bits - to));
    UnitAdd(bits, to);
  }

  /** The bits left over, moved to the top of a group. */
  lemma LeftOver(v: nat, acc: nat, bits: nat, to: nat)
    requires acc == v % WORD && bits < to <= 8
    ensures acc * Unit(to - bits) % Unit(to) == v % Unit(bits) * Unit(to - bits)
    ensures v * Unit(to - bits) == v / Unit(bits) * Unit(to) + v % Unit(bits) * Unit(to - bits)
  {
    var u, r := Unit(bits), Unit(to - bits);
    UnitAdd(bits, to - bits);
    UnitAdd(32 - bits, bits);
    UnitWord();
    assert Unit(32 - bits) * u == WORD;
    WrapMod(v, u, Unit(32 - bits), WORD);
    ShiftMod(v, u, r);
    ShiftMod(acc, u, r);
  }

  lemma WrapMod(v: nat, u: nat, k: nat, w: nat)
    requires u > 0 && k > 0 && w == k * u
    ensures w > 0 && v % w % u == v % u
  {
    ProductPositive(k, u);
    var q, r := v / w, v % w;
    assert v == q * k * u + r by {
      Division(v, w);
      Associate(q, k, u);
    }
    DivShift(q * k, u, r);
  }

  lemma Division(v: nat, w: nat)
    requires w > 0
    ensures v == v / w * w + v % w
  {
  }

  lemma Associate(a: nat, b: nat, c: nat)
    ensures a * (b * c) == a * b * c
  {
  }

  lemma ShiftMod(v: nat, u: nat, r: nat)
    requires u > 0 && r > 0
    ensures u * r > 0 && v * r % (u * r) == v % u * r && v * r == v / u * (u * r) + v % u * r
  {
    var q, m := v / u, v % u;
    assert v == q * u + m;
    Recompose(q, m, 0, r, u);
    Nested(m, 0, r, u);
    DivModUnique(u * r, v * r / (u * r), v * r % (u * r), q, m * r);
  }

  lemma OneMore(w: nat, n: nat)
    ensures w * (n + 1) == w * n + w
  {
  }

  lemma TakeOne(data: seq<int>, i: nat, b: nat)
    requires i < |data|
    ensures Value(data[..i + 1], b) == Value(data[..i], b) * b + data[i]
  {
    assert data[..i + 1][..i] == data[..i];
  }

  /** The inner loop: cut whole groups off the top of the accumulator. */
  method CutGroups(acc: nat, bitsIn: nat, to: Width, outIn: seq<int>, ghost v: nat) returns (bits: nat, out: seq<int>)
    requires acc == v % WORD && bitsIn < to + 8
    requires Digits(outIn, Unit(to)) && Value(outIn, Unit(to)) == v / Unit(bitsIn)
    ensures bits < to && to * |out| + bits == to * |outIn| + bitsIn
    ensures Digits(out, Unit(to)) && Value(out, Unit(to)) == v / Unit(bits)
  {
    bits, out := bitsIn, outIn;
    while bits >= to
      invariant bits <= bitsIn && to * |out| + bits == to * |outIn| + bitsIn
      invariant Digits(out, Unit(to)) && Value(out, Unit(to)) == v / Unit(bits)
    {
      bits := bits - to;
      ShiftOut(v, acc, bits, to);
      var group := acc / Unit(bits) % Unit(to);
      Append(out, group, Unit(to));
      OneMore(to, |out|);
      out := out + [group];
    }
  }

  /** acc = (acc << from) | b, on a 32-bit word. */
  method Pour(acc: nat, from: Width, b: nat, ghost v: nat) returns (next: nat)
    requires acc == v % WORD && b < Unit(from)
    ensures next == (v * Unit(from) + b) % WORD
  {
    WrapStep(v, acc, Unit(from), b);
    next := (acc * Unit(from) + b) % WORD;
  }

  /** convertBits; None is its RangeError. The accumulator is a 32-bit word throughout. */
  method ConvertBits(data: seq<int>, from: Width, to: Width, pad: bool) returns (r: Option<seq<int>>)
    requires Digits(data, Unit(from))
    ensures r == Regroup(data, from, to, pad)
  {
    var acc, bits := 0, 0;
    var out: seq<int> := [];
    ghost var v: nat := 0;
    for i := 0 to |data|
      invariant v == Value(data[..i], Unit(from)) && acc == v % WORD && 0 <= bits < to
      invariant from * i == to * |out| + bits
      invariant Digits(out, Unit(to)) && Value(out, Unit(to)) == v / Unit(bits)
    {
      var b := data[i];
      TakeOne(data, i, Unit(from));
      ShiftIn(v, from, b, bits);
      acc := Pour(acc, from, b, v);
      v := v * Unit(from) + b;
      OneMore(from, i);
      bits, out := CutGroups(acc, bits + from, to, out, v);
    }
    assert data[..|data|] == data;
    LeftOver(v, acc, bits, to);
    r := LastGroup(v, bits, from, to, pad, acc * Unit(to - bits) % Unit(to), out);
    RegroupIs(data, from, to, pad, v, |out|, bits);
    RegroupingUnique(v, |out|, bits, from, to, pad, r, Regroup(data, from, to, pad));
  }

  /** What is left after the loop: a padded group, or the check that padding is zero and short. */
  method LastGroup(ghost v: nat, bits: nat, from: Width, to: Width, pad: bool, last: nat, out: seq<int>)
    returns (r: Option<seq<int>>)
    requires bits < to && Digits(out, Unit(to)) && Value(out, Unit(to)) == v / Unit(bits)
    requires last < Unit(to) && last == v % Unit(bits) * Unit(to - bits)
    requires v * Unit(to - bits) == v / Unit(bits) * Unit(to) + last
    ensures Regrouping(v, |out|, bits, from, to, pad, r)
  {
    TopBitsZero(v % Unit(bits), Unit(to - bits));
    r := Some(out);
    if pad {
      if bits > 0 {
        Append(out, last, Unit(to));
        r := Some(out + [last]);
      }
    } else if bits >= from || last != 0 {
      r := None;
    }
  }

  lemma TopBitsZero(m: nat, r: nat)
    requires r > 0
    ensures m * r == 0 <==> m == 0
  {
  }

  // ---- the function is the answer ----

  lemma {:induction false} PowOfPow(w: nat, n: nat)
    ensures Pow(Unit(w), n) == Unit(w * n)
  {
    if n > 0 {
      PowOfPow(w, n - 1);
      UnitAdd(w, w * (n - 1));
      OneMore(w, n - 1);
    }
  }

  lemma ScaledBound(v: nat, p: nat, k: nat)
    requires v < p && k > 0
    ensures v * k < p * k
  {
    MulMono(v, p - 1, k);
    assert (p - 1) * k == p * k - k;
  }

  lemma WholeFits(v: nat, n: nat, rem: nat, to: nat)
    requires v < Unit(to * n + rem)
    ensures v / Unit(rem) < Pow(Unit(to), n)
  {
    UnitAdd(rem, to * n);
    PowOfPow(to, n);
    DivBound(v, Unit(rem), Unit(to * n));
  }

  lemma PaddedFits(v: nat, n: nat, rem: nat, to: nat)
    requires v < Unit(to * n + rem) && rem < to
    ensures v * Unit(to - rem) < Pow(Unit(to), n + 1)
  {
    OneMore(to, n);
    UnitAdd(to * n + rem, to - rem);
    PowOfPow(to, n + 1);
    ScaledBound(v, Unit(to * n + rem), Unit(to - rem));
  }

  lemma PaddedIs(v: nat, n: nat, rem: nat, from: Width, to: Width)
    requires v < Unit(to * n + rem) && rem < to
    ensures Regrouping(v, n, rem, from, to, true, RegroupParts(v, n, rem, from, to, true))
  {
    if rem == 0 {
      WholeFits(v, n, 0, to);
      assert Unit(0) == 1;
      NumeralValue(v, Unit(to), n);
    } else {
      PaddedFits(v, n, rem, to);
      NumeralValue(v * Unit(to - rem), Unit(to), n + 1);
    }
  }

  lemma WholeIs(v: nat, n: nat, rem: nat, from: Width, to: Width)
    requires v < Unit(to * n + rem) && rem < to
    ensures Regrouping(v, n, rem, from, to, false, RegroupParts(v, n, rem, from, to, false))
  {
    if rem < from && v % Unit(rem) == 0 {
      WholeFits(v, n, rem, to);
      WholeNumeral(v / Unit(rem), n, to);
      assert RegroupParts(v, n, rem, from, to, false) == Some(Numeral(v / Unit(rem), Unit(to), n));
    } else {
      assert RegroupParts(v, n, rem, from, to, false) == None;
    }
  }

  lemma WholeNumeral(q: nat, n: nat, to: nat)
    requires q < Pow(Unit(to), n)
    ensures Value(Numeral(q, Unit(to), n), Unit(to)) == q
  {
    NumeralValue(q, Unit(to), n);
  }

  lemma RegroupIs(data: seq<int>, from: Width, to: Width, pad: bool, v: nat, n: nat, rem: nat)
    requires Digits(data, Unit(from)) && v == Value(data, Unit(from)) && from * |data| == to * n + rem && rem < to
    ensures Regrouping(v, n, rem, from, to, pad, Regroup(data, from, to, pad))
  {
    RegroupNumberIs(v, from * |data|, from, to, pad, n, rem);
    ValueBound(data, Unit(from));
    PowOfPow(from, |data|);
    if pad {
      PaddedIs(v, n, rem, from, to);
    } else {
      WholeIs(v, n, rem, from, to);
    }
  }

  lemma RegroupNumberIs(v: nat, total: nat, from: Width, to: Width, pad: bool, n: nat, rem: nat)
    requires total == to * n + rem && rem < to
    ensures RegroupNumber(v, total, from, to, pad) == RegroupParts(v, n, rem, from, to, pad)
  {
    DivModUnique(to, total / to, total % to, n, rem);
  }

  // ---- there and back ----

  /** n bytes are n' groups of five bits, k of the last group's being padding. */
  lemma PaddedLength(n: nat) returns (q: nat, rem: nat, m: nat, k: nat)
    ensures 8 * n == 5 * q + rem && rem < 5 && m == (if rem == 0 then q else q + 1)
    ensures 5 * m == 8 * n + k && k < 5 && k == (if rem == 0 then 0 else 5 - rem)
  {
    q, rem := 8 * n / 5, 8 * n % 5;
    m := if rem == 0 then q else q + 1;
    k := 5 * m - 8 * n;
  }

  lemma ScaledBack(v: nat, u: nat)
    requires u > 0
    ensures v * u / u == v && v * u % u == 0
  {
    DivStep(v, u, 0);
  }

  /** Five-bit groups of bytes are never refused and give the bytes back. */
  lemma BytesSurvive(bytes: seq<int>)
    requires Digits(bytes, Unit(8))
    ensures var groups := Regroup(bytes, 8, 5, true);
            && groups.Some? && Digits(groups.value, Unit(5))
            && Regroup(groups.value, 5, 8, false) == Some(bytes)
  {
    var q, rem, m, k := PaddedLength(|bytes|);
    var v := Number(bytes, Unit(8));
    RegroupIs(bytes, 8, 5, true, v, q, rem);
    var groups := Regroup(bytes, 8, 5, true).value;
    var w := Number(groups, Unit(5));
    assert Unit(0) == 1;
    assert w == v * Unit(k);
    ScaledBack(v, Unit(k));
    RegroupIs(groups, 5, 8, false, w, |bytes|, k);
    RegroupingUnique(w, |bytes|, k, 5, 8, false, Regroup(groups, 5, 8, false), Some(bytes));
  }

  lemma Exact(w: nat, u: nat)
    requires u > 0 && w % u == 0
    ensures w / u * u == w
  {
  }

  /** What five-bit groups decode to encodes back to the same groups. */
  lemma GroupsSurvive(groups: seq<int>)
    requires Digits(groups, Unit(5)) && Regroup(groups, 5, 8, false).Some?
    ensures var bytes := Regroup(groups, 5, 8, false).value;
            Digits(bytes, Unit(8)) && Regroup(bytes, 8, 5, true) == Some(groups)
  {
    var w := Number(groups, Unit(5));
    var n, k := 5 * |groups| / 8, 5 * |groups| % 8;
    RegroupIs(groups, 5, 8, false, w, n, k);
    var bytes := Regroup(groups, 5, 8, false).value;
    var q, rem, m, k' := PaddedLength(n);
    assert m == |groups| && k' == k;
    var v := Number(bytes, Unit(8));
    assert Unit(0) == 1;
    Exact(w, Unit(k));
    RegroupIs(bytes, 8, 5, true, v, q, rem);
    RegroupingUnique(v, q, rem, 8, 5, true, Regroup(bytes, 8, 5, true), Some(groups));
  }
}
