/** Linear feedback registers in general: what six-symbol checksums of such a register can and cannot miss.
    Words, symbols and exclusive-or are abstract here; Lfsr supplies the machine words of polymod. */
module Registers {

  datatype Machine<!W> = Machine(
    step: (W, W) -> W,
    xor: (W, W) -> W,
    zero: W,
    small: W -> bool,
    symbol: W -> bool,
    pack: seq<W> -> W,
    unpack: W -> seq<W>)

  function Run<W>(m: Machine<W>, chk: W, values: seq<W>): W
    decreases |values|
  {
    if values == [] then chk else Run(m, m.step(chk, values[0]), values[1..])
  }

  ghost predicate XorLaws<W(!new)>(m: Machine<W>) {
    && (forall a {:trigger m.xor(a, m.zero)} {:trigger m.xor(m.zero, a)} {:trigger m.xor(a, a)} ::
          m.xor(a, m.zero) == a && m.xor(m.zero, a) == a && m.xor(a, a) == m.zero)
    && (forall a, b {:trigger m.xor(a, m.xor(a, b))} :: m.xor(a, m.xor(a, b)) == b)
    && (forall a, b {:trigger m.small(m.xor(a, b))} :: m.small(a) && m.small(b) ==> m.small(m.xor(a, b)))
    && (forall a, b {:trigger m.symbol(m.xor(a, b))} :: m.symbol(a) && m.symbol(b) ==> m.symbol(m.xor(a, b)))
  }

  ghost predicate Linear<W(!new)>(m: Machine<W>) {
    forall a, b, v, w {:trigger m.step(m.xor(a, b), m.xor(v, w))} ::
      m.step(m.xor(a, b), m.xor(v, w)) == m.xor(m.step(a, v), m.step(b, w))
  }

  /** Registers stay in range, and only the empty one goes to empty on a zero. */
  ghost predicate Ranges<W(!new)>(m: Machine<W>) {
    && m.small(m.zero) && m.symbol(m.zero)
    && (forall a :: m.symbol(a) ==> m.small(a))
    && (forall a, v {:trigger m.step(a, v)} :: m.small(a) && m.small(v) ==> m.small(m.step(a, v)))
    && (forall a {:trigger m.step(a, m.zero)} :: m.small(a) ==> (m.step(a, m.zero) == m.zero <==> a == m.zero))
  }

  predicate Six<W>(m: Machine<W>, s: seq<W>) {
    |s| == 6 && forall i :: 0 <= i < 6 ==> m.symbol(s[i])
  }

  /** Six symbols into an empty register are just packed, and packing loses nothing. */
  ghost predicate Packs<W(!new)>(m: Machine<W>) {
    && (forall s {:trigger m.pack(s)} :: Six(m, s) ==>
          && m.step(m.step(m.step(m.step(m.step(m.step(m.zero, s[0]), s[1]), s[2]), s[3]), s[4]), s[5]) == m.pack(s)
          && m.unpack(m.pack(s)) == s)
    && (forall w {:trigger m.unpack(w)} :: m.small(w) ==> Six(m, m.unpack(w)) && m.pack(m.unpack(w)) == w)
  }

  ghost predicate Good<W(!new)>(m: Machine<W>) {
    XorLaws(m) && Linear(m) && Ranges(m) && Packs(m)
  }

  function XorAll<W>(m: Machine<W>, x: seq<W>, y: seq<W>): (r: seq<W>)
    requires |x| == |y|
    ensures |r| == |x|
  {
    seq(|x|, i requires 0 <= i < |x| => m.xor(x[i], y[i]))
  }

  lemma {:induction false} RunLinear<W(!new)>(m: Machine<W>, a: W, b: W, x: seq<W>, y: seq<W>)
    requires Linear(m) && |x| == |y|
    ensures Run(m, m.xor(a, b), XorAll(m, x, y)) == m.xor(Run(m, a, x), Run(m, b, y))
    decreases |x|
  {
    if x != [] {
      RunLinear(m, m.step(a, x[0]), m.step(b, y[0]), x[1..], y[1..]);
      assert XorAll(m, x, y)[1..] == XorAll(m, x[1..], y[1..]);
    }
  }

  lemma {:induction false} RunConcat<W>(m: Machine<W>, chk: W, x: seq<W>, y: seq<W>)
    ensures Run(m, chk, x + y) == Run(m, Run(m, chk, x), y)
    decreases |x|
  {
    if x == [] {
      assert x + y == y;
    } else {
      assert (x + y)[0] == x[0] && (x + y)[1..] == x[1..] + y;
      RunConcat(m, m.step(chk, x[0]), x[1..], y);
    }
  }

  lemma {:induction false} RunSmall<W(!new)>(m: Machine<W>, chk: W, values: seq<W>)
    requires Ranges(m) && m.small(chk) && forall i :: 0 <= i < |values| ==> m.small(values[i])
    ensures m.small(Run(m, chk, values))
    decreases |values|
  {
    if values != [] {
      RunSmall(m, m.step(chk, values[0]), values[1..]);
    }
  }

  function Zeros<W>(m: Machine<W>, n: nat): (r: seq<W>)
    ensures |r| == n && forall i :: 0 <= i < n ==> r[i] == m.zero
  {
    seq(n, i => m.zero)
  }

  lemma RunSix<W>(m: Machine<W>, chk: W, s: seq<W>)
    requires |s| == 6
    ensures Run(m, chk, s) == m.step(m.step(m.step(m.step(m.step(m.step(chk, s[0]), s[1]), s[2]), s[3]), s[4]), s[5])
  {
    assert s[1..][1..] == s[2..] && s[2..][1..] == s[3..] && s[3..][1..] == s[4..] && s[4..][1..] == s[5..] && s[5..][1..] == [];
    var c1 := m.step(chk, s[0]);
    var c2 := m.step(c1, s[1]);
    var c3 := m.step(c2, s[2]);
    assert Run(m, chk, s) == Run(m, c1, s[1..]) == Run(m, c2, s[2..]) == Run(m, c3, s[3..]);
    var c4 := m.step(c3, s[3]);
    var c5 := m.step(c4, s[4]);
    assert Run(m, c3, s[3..]) == Run(m, c4, s[4..]) == Run(m, c5, s[5..]);
    assert Run(m, c5, s[5..]) == Run(m, m.step(c5, s[5]), s[5..][1..]);
  }

  lemma XorZeros<W(!new)>(m: Machine<W>, s: seq<W>)
    requires XorLaws(m)
    ensures XorAll(m, Zeros(m, |s|), s) == s
  {
  }

  /** The register after six more symbols is the one after six zeros, xor the symbols packed. */
  lemma SixMore<W(!new)>(m: Machine<W>, chk: W, s: seq<W>)
    requires Good(m) && Six(m, s)
    ensures Run(m, chk, s) == m.xor(Run(m, chk, Zeros(m, 6)), m.pack(s))
  {
    RunSix(m, m.zero, s);
    RunLinear(m, chk, m.zero, Zeros(m, 6), s);
    XorZeros(m, s);
  }

  /** For every start and target exactly one six-symbol ending reaches the target. */
  lemma ChecksumIsUnique<W(!new)>(m: Machine<W>, chk: W, target: W, s: seq<W>)
    requires Good(m) && m.small(chk) && m.small(target) && Six(m, s)
    ensures Run(m, chk, s) == target <==> s == m.unpack(m.xor(Run(m, chk, Zeros(m, 6)), target))
  {
    var r := Run(m, chk, Zeros(m, 6));
    RunSmall(m, chk, Zeros(m, 6));
    SixMore(m, chk, s);
    assert m.xor(r, m.xor(r, m.pack(s))) == m.pack(s);
    assert m.xor(r, m.xor(r, target)) == target;
  }

  /** A register that is not empty never empties on zeros, and an empty one stays empty. */
  lemma {:induction false} ZerosKeep<W(!new)>(m: Machine<W>, chk: W, n: nat)
    requires Ranges(m) && m.small(chk)
    ensures Run(m, chk, Zeros(m, n)) == m.zero <==> chk == m.zero
    decreases n
  {
    if n > 0 {
      assert Zeros(m, n)[1..] == Zeros(m, n - 1) && Zeros(m, n)[0] == m.zero;
      ZerosKeep(m, m.step(chk, m.zero), n - 1);
    }
  }

  lemma PackNonZero<W(!new)>(m: Machine<W>, s: seq<W>)
    requires Good(m) && Six(m, s) && s != Zeros(m, 6)
    ensures m.pack(s) != m.zero && m.small(m.pack(s))
  {
    RunSix(m, m.zero, s);
    RunSmall(m, m.zero, s);
    var z := Zeros(m, 6);
    assert Six(m, z);
    RunSix(m, m.zero, z);
    ZerosKeep(m, m.zero, 6);
    assert m.unpack(m.pack(z)) == z;
  }

  /** An error confined to six consecutive symbols always leaves a mark on the register. */
  lemma BurstShows<W(!new)>(m: Machine<W>, before: nat, burst: seq<W>, after: nat)
    requires Good(m) && Six(m, burst) && burst != Zeros(m, 6)
    ensures Run(m, m.zero, Zeros(m, before) + burst + Zeros(m, after)) != m.zero
  {
    RunConcat(m, m.zero, Zeros(m, before) + burst, Zeros(m, after));
    RunConcat(m, m.zero, Zeros(m, before), burst);
    ZerosKeep(m, m.zero, before);
    RunSix(m, m.zero, burst);
    PackNonZero(m, burst);
    ZerosKeep(m, m.pack(burst), after);
  }

  lemma ErrorIsSymbols<W(!new)>(m: Machine<W>, x: seq<W>, y: seq<W>)
    requires XorLaws(m) && Six(m, x) && Six(m, y) && x != y
    ensures Six(m, XorAll(m, x, y)) && XorAll(m, x, y) != Zeros(m, 6)
  {
    var k :| 0 <= k < 6 && x[k] != y[k];
    assert m.xor(x[k], m.xor(x[k], y[k])) == y[k];
    assert XorAll(m, x, y)[k] != m.zero;
  }

  lemma ErrorOfBurst<W(!new)>(m: Machine<W>, before: seq<W>, x: seq<W>, y: seq<W>, after: seq<W>)
    requires XorLaws(m) && |x| == |y|
    ensures XorAll(m, before + x + after, before + y + after)
         == Zeros(m, |before|) + XorAll(m, x, y) + Zeros(m, |after|)
  {
  }

  /** So two words that differ only inside six consecutive symbols never have the same checksum. */
  lemma BurstChangesRun<W(!new)>(m: Machine<W>, chk: W, before: seq<W>, x: seq<W>, y: seq<W>, after: seq<W>)
    requires Good(m) && Six(m, x) && Six(m, y) && x != y
    ensures Run(m, chk, before + x + after) != Run(m, chk, before + y + after)
  {
    var u, w := before + x + after, before + y + after;
    RunLinear(m, chk, chk, u, w);
    ErrorOfBurst(m, before, x, y, after);
    ErrorIsSymbols(m, x, y);
    BurstShows(m, |before|, XorAll(m, x, y), |after|);
  }

  // ---- a register made of linear parts is linear ----

  datatype Parts<!W> = Parts(
    xor: (W, W) -> W,
    zero: W,
    low: W -> W,
    top: W -> W,
    bit: (W, nat) -> bool,
    gen: nat -> W)

  /** What the first n bits of the top feed back. */
  function Feedback<W>(p: Parts<W>, top: W, n: nat): W {
    if n == 0 then p.zero else p.xor(Feedback(p, top, n - 1), if p.bit(top, n - 1) then p.gen(n - 1) else p.zero)
  }

  /** Shift in v, then feed the top bits back. */
  function StepOf<W>(p: Parts<W>, taps: nat, chk: W, v: W): W {
    p.xor(p.xor(p.low(chk), v), Feedback(p, p.top(chk), taps))
  }

  /** Names words to regroup, so that the two laws are used only where the proofs say. */
  predicate Names<W>(a: W, b: W, c: W) {
    true
  }

  ghost predicate Associative<W(!new)>(p: Parts<W>) {
    forall a, b, c {:trigger Names(a, b, c)} :: Names(a, b, c) ==> p.xor(a, p.xor(b, c)) == p.xor(p.xor(a, b), c)
  }

  ghost predicate Commutative<W(!new)>(p: Parts<W>) {
    forall a, b {:trigger Names(a, b, b)} :: Names(a, b, b) ==> p.xor(a, b) == p.xor(b, a)
  }

  lemma Swap<W(!new)>(p: Parts<W>, a: W, b: W, c: W, d: W)
    requires Associative(p) && Commutative(p)
    ensures p.xor(p.xor(a, b), p.xor(c, d)) == p.xor(p.xor(a, c), p.xor(b, d))
  {
    assert Names(a, b, p.xor(c, d)) && Names(b, c, d) && Names(b, c, c) && Names(c, b, d) && Names(a, c, p.xor(b, d));
  }

  ghost predicate UnitLaws<W(!new)>(p: Parts<W>) {
    forall a {:trigger p.xor(a, p.zero)} {:trigger p.xor(p.zero, a)} {:trigger p.xor(a, a)} ::
      p.xor(a, p.zero) == a && p.xor(p.zero, a) == a && p.xor(a, a) == p.zero
  }

  ghost predicate ShiftsLinear<W(!new)>(p: Parts<W>) {
    && (forall a, b {:trigger p.low(p.xor(a, b))} :: p.low(p.xor(a, b)) == p.xor(p.low(a), p.low(b)))
    && (forall a, b {:trigger p.top(p.xor(a, b))} :: p.top(p.xor(a, b)) == p.xor(p.top(a), p.top(b)))
  }

  ghost predicate BitsLinear<W(!new)>(p: Parts<W>, taps: nat) {
    forall a, b, i: nat {:trigger p.bit(p.xor(a, b), i)} :: i < taps ==> (p.bit(p.xor(a, b), i) <==> p.bit(a, i) != p.bit(b, i))
  }

  lemma {:induction false} FeedbackLinear<W(!new)>(p: Parts<W>, taps: nat, a: W, b: W, n: nat)
    requires UnitLaws(p) && Associative(p) && Commutative(p) && BitsLinear(p, taps) && n <= taps
    ensures Feedback(p, p.xor(a, b), n) == p.xor(Feedback(p, a, n), Feedback(p, b, n))
    decreases n
  {
    if n > 0 {
      var i := n - 1;
      FeedbackLinear(p, taps, a, b, i);
      var t, u := if p.bit(a, i) then p.gen(i) else p.zero, if p.bit(b, i) then p.gen(i) else p.zero;
      assert (if p.bit(p.xor(a, b), i) then p.gen(i) else p.zero) == p.xor(t, u);
      Swap(p, Feedback(p, a, i), Feedback(p, b, i), t, u);
    }
  }

  lemma StepOfLinear<W(!new)>(p: Parts<W>, taps: nat, a: W, b: W, v: W, w: W)
    requires UnitLaws(p) && Associative(p) && Commutative(p) && BitsLinear(p, taps) && ShiftsLinear(p)
    ensures StepOf(p, taps, p.xor(a, b), p.xor(v, w)) == p.xor(StepOf(p, taps, a, v), StepOf(p, taps, b, w))
  {
    FeedbackLinear(p, taps, p.top(a), p.top(b), taps);
    Swap(p, p.low(a), p.low(b), v, w);
    Swap(p, p.xor(p.low(a), v), p.xor(p.low(b), w), Feedback(p, p.top(a), taps), Feedback(p, p.top(b), taps));
  }

  ghost predicate StepsLinear<W(!new)>(p: Parts<W>, taps: nat) {
    forall a, b, v, w {:trigger StepOf(p, taps, p.xor(a, b), p.xor(v, w))} ::
      StepOf(p, taps, p.xor(a, b), p.xor(v, w)) == p.xor(StepOf(p, taps, a, v), StepOf(p, taps, b, w))
  }

  lemma PartsMakeLinear<W(!new)>(p: Parts<W>, taps: nat)
    requires UnitLaws(p) && Associative(p) && Commutative(p) && BitsLinear(p, taps) && ShiftsLinear(p)
    ensures StepsLinear(p, taps)
  {
    forall a, b, v, w
      ensures StepOf(p, taps, p.xor(a, b), p.xor(v, w)) == p.xor(StepOf(p, taps, a, v), StepOf(p, taps, b, w))
    {
      StepOfLinear(p, taps, a, b, v, w);
    }
  }

  /** The inner loop: feed back the tap of every set bit of the top. */
  method AddFeedback<W(!new)>(p: Parts<W>, taps: nat, shifted: W, top: W) returns (chk: W)
    requires UnitLaws(p) && Associative(p)
    ensures chk == p.xor(shifted, Feedback(p, top, taps))
  {
    chk := shifted;
    for i := 0 to taps
      invariant chk == p.xor(shifted, Feedback(p, top, i))
    {
      assert Names(shifted, Feedback(p, top, i), p.gen(i));
      if p.bit(top, i) {
        chk := p.xor(chk, p.gen(i));
      }
    }
  }
}
