/** The 30-bit feedback register behind the Bech32 checksum (polymod in address.js), on machine words. */
module Lfsr {
  import opened Registers

  const TAPS := 5

  /** GEN[i] */
  function Gen(i: nat): bv32 {
    if i == 0 then 0x3b6a57b2
    else if i == 1 then 0x26508e6d
    else if i == 2 then 0x1ea119fa
    else if i == 3 then 0x3d4233dd
    else 0x2a1462b3
  }

  /** (top >>> i) & 1 */
  predicate Bit(top: bv32, i: nat) {
    if i == 0 then top & 1 == 1
    else if i == 1 then (top >> 1) & 1 == 1
    else if i == 2 then (top >> 2) & 1 == 1
    else if i == 3 then (top >> 3) & 1 == 1
    else (top >> 4) & 1 == 1
  }

  function Xor(a: bv32, b: bv32): bv32 {
    a ^ b
  }

  function Low(chk: bv32): bv32 {
    (chk & 0x1ff_ffff) << 5
  }

  function Top(chk: bv32): bv32 {
    chk >> 25
  }

  predicate Small(w: bv32) {
    w < 0x4000_0000
  }

  predicate Symbol(w: bv32) {
    w < 32
  }

  function Pack6(a: bv32, b: bv32, c: bv32, d: bv32, e: bv32, f: bv32): bv32 {
    (a << 25) | (b << 20) | (c << 15) | (d << 10) | (e << 5) | f
  }

  function Pack(s: seq<bv32>): bv32 {
    if |s| == 6 then Pack6(s[0], s[1], s[2], s[3], s[4], s[5]) else 0
  }

  /** The checksum's six symbols: (mod >>> (5 * (5 - i))) & 31. */
  function Unpack(m: bv32): seq<bv32> {
    [(m >> 25) & 31, (m >> 20) & 31, (m >> 15) & 31, (m >> 10) & 31, (m >> 5) & 31, m & 31]
  }

  const PARTS: Parts<bv32> := Parts(Xor, 0, Low, Top, Bit, Gen)

  function Step(chk: bv32, v: bv32): bv32 {
    StepOf(PARTS, TAPS, chk, v)
  }

  const POLYMOD: Machine<bv32> := Machine(Step, Xor, 0, Small, Symbol, Pack, Unpack)

  function Poly(values: seq<bv32>): bv32 {
    Run(POLYMOD, 1, values)
  }

  lemma XorAssoc(a: bv32, b: bv32, c: bv32)
    ensures a ^ (b ^ c) == (a ^ b) ^ c
  {
  }

  /** The words of PARTS are machine words. */
  lemma PartsXor(p: Parts<bv32>, a: bv32, b: bv32)
    requires p == PARTS
    ensures p.xor(a, b) == a ^ b
  {
  }

  lemma NextFeedback(p: Parts<bv32>, top: bv32, i: nat)
    requires p == PARTS
    ensures Feedback(p, top, i + 1) == Feedback(p, top, i) ^ (if Bit(top, i) then Gen(i) else 0)
  {
    PartsXor(p, Feedback(p, top, i), if p.bit(top, i) then p.gen(i) else p.zero);
  }

  // ---- the parts are linear ----

  lemma LowLinear(a: bv32, b: bv32)
    ensures ((a ^ b) & 0x1ff_ffff) << 5 == ((a & 0x1ff_ffff) << 5) ^ ((b & 0x1ff_ffff) << 5)
  {
  }

  lemma TopLinear(a: bv32, b: bv32)
    ensures (a ^ b) >> 25 == (a >> 25) ^ (b >> 25)
  {
  }

  lemma BitLinear(a: bv32, b: bv32, i: nat)
    requires i < 5
    ensures Bit(a ^ b, i) <==> Bit(a, i) != Bit(b, i)
  {
  }

  lemma PartsAssociateAt(p: Parts<bv32>, a: bv32, b: bv32, c: bv32)
    requires p == PARTS
    ensures p.xor(a, p.xor(b, c)) == p.xor(p.xor(a, b), c)
  {
    XorAssoc(a, b, c);
    PartsXor(p, b, c);
    PartsXor(p, a, b);
    PartsXor(p, a, b ^ c);
    PartsXor(p, a ^ b, c);
  }

  lemma PartsAssociate(p: Parts<bv32>)
    requires p == PARTS
    ensures Associative(p)
  {
    forall a, b, c ensures p.xor(a, p.xor(b, c)) == p.xor(p.xor(a, b), c) {
      PartsAssociateAt(p, a, b, c);
    }
  }

  lemma PartsCommute()
    ensures Commutative(PARTS)
  {
  }

  lemma PartsRegroup()
    ensures Associative(PARTS) && Commutative(PARTS)
  {
    PartsAssociate(PARTS);
    PartsCommute();
  }

  lemma PartsUnits()
    ensures UnitLaws(PARTS)
  {
  }

  lemma PartsShift()
    ensures ShiftsLinear(PARTS)
  {
    forall a, b ensures Low(Xor(a, b)) == Xor(Low(a), Low(b)) {
      LowLinear(a, b);
    }
    forall a, b ensures Top(Xor(a, b)) == Xor(Top(a), Top(b)) {
      TopLinear(a, b);
    }
  }

  lemma PartsBits()
    ensures BitsLinear(PARTS, TAPS)
  {
    forall a, b, i: nat | i < TAPS ensures Bit(Xor(a, b), i) <==> Bit(a, i) != Bit(b, i) {
      BitLinear(a, b, i);
    }
  }

  lemma PartsAreLinear()
    ensures StepsLinear(PARTS, TAPS)
  {
    PartsRegroup();
    PartsUnits();
    PartsShift();
    PartsBits();
    PartsMakeLinear(PARTS, TAPS);
  }

  lemma StepIsLinear()
    ensures Linear(POLYMOD)
  {
    PartsAreLinear();
  }

  lemma XorIsLawful()
    ensures XorLaws(POLYMOD)
  {
    forall a, b ensures Xor(a, Xor(a, b)) == b {
    }
    forall a, b | Small(a) && Small(b) ensures Small(Xor(a, b)) {
    }
    forall a, b | Symbol(a) && Symbol(b) ensures Symbol(Xor(a, b)) {
    }
  }

  // ---- the loops ----

  /** One pass of the outer loop. */
  method StepWord(chk: bv32, v: bv32) returns (next: bv32)
    ensures next == Step(chk, v)
  {
    PartsRegroup();
    PartsUnits();
    var top := chk >> 25;
    var shifted := ((chk & 0x1ff_ffff) << 5) ^ v;
    next := AddFeedback(PARTS, TAPS, shifted, top);
  }

  /** polymod; its final >>> 0 changes nothing on an unsigned word. */
  method Polymod(values: seq<bv32>) returns (chk: bv32)
    ensures chk == Poly(values)
  {
    chk := 1;
    ghost var m: Machine<bv32> := POLYMOD;
    for k := 0 to |values|
      invariant m == POLYMOD && Run(m, chk, values[k..]) == Poly(values)
    {
      assert values[k..][0] == values[k] && values[k..][1..] == values[k + 1..];
      chk := StepWord(chk, values[k]);
    }
  }

  // ---- ranges and packing ----

  /** One step, written out. */
  function Flat(chk: bv32, v: bv32): bv32 {
    var t := chk >> 25;
    (((chk & 0x1ff_ffff) << 5) ^ v)
    ^ (((((0 ^ (if Bit(t, 0) then 0x3b6a57b2 else 0)) ^ (if Bit(t, 1) then 0x26508e6d else 0))
       ^ (if Bit(t, 2) then 0x1ea119fa else 0)) ^ (if Bit(t, 3) then 0x3d4233dd else 0))
       ^ (if Bit(t, 4) then 0x2a1462b3 else 0))
  }

  lemma FeedbackIs(p: Parts<bv32>, t: bv32)
    requires p == PARTS
    ensures Feedback(p, t, 5) == (((((0 ^ (if Bit(t, 0) then 0x3b6a57b2 else 0)) ^ (if Bit(t, 1) then 0x26508e6d else 0))
              ^ (if Bit(t, 2) then 0x1ea119fa else 0)) ^ (if Bit(t, 3) then 0x3d4233dd else 0))
              ^ (if Bit(t, 4) then 0x2a1462b3 else 0))
  {
    NextFeedback(p, t, 0);
    NextFeedback(p, t, 1);
    NextFeedback(p, t, 2);
    NextFeedback(p, t, 3);
    NextFeedback(p, t, 4);
  }

  lemma StepIsFlat(chk: bv32, v: bv32)
    ensures Step(chk, v) == Flat(chk, v)
  {
    FeedbackIs(PARTS, chk >> 25);
  }

  lemma FlatSmall(a: bv32, v: bv32)
    requires Small(a) && Small(v)
    ensures Small(Flat(a, v))
  {
  }

  lemma FlatZero(a: bv32)
    requires Small(a)
    ensures Flat(a, 0) == 0 <==> a == 0
  {
  }

  lemma FlatFromZero(a: bv32, b: bv32, c: bv32, d: bv32, e: bv32, f: bv32)
    requires a < 32 && b < 32 && c < 32 && d < 32 && e < 32 && f < 32
    ensures Flat(Flat(Flat(Flat(Flat(Flat(0, a), b), c), d), e), f) == Pack6(a, b, c, d, e, f)
  {
  }

  lemma StepIsInRange()
    ensures Ranges(POLYMOD)
  {
    forall a, v | Small(a) && Small(v) ensures Small(Step(a, v)) {
      StepIsFlat(a, v);
      FlatSmall(a, v);
    }
    forall a | Small(a) ensures Step(a, 0) == 0 <==> a == 0 {
      StepIsFlat(a, 0);
      FlatZero(a);
    }
  }

  lemma SymbolsOut(a: bv32, b: bv32, c: bv32, d: bv32, e: bv32, f: bv32)
    requires a < 32 && b < 32 && c < 32 && d < 32 && e < 32 && f < 32
    ensures var m := Pack6(a, b, c, d, e, f);
            && (m >> 25) & 31 == a && (m >> 20) & 31 == b && (m >> 15) & 31 == c && (m >> 10) & 31 == d
            && (m >> 5) & 31 == e && m & 31 == f
  {
  }

  lemma WordOut(m: bv32)
    requires Small(m)
    ensures Pack6((m >> 25) & 31, (m >> 20) & 31, (m >> 15) & 31, (m >> 10) & 31, (m >> 5) & 31, m & 31) == m
    ensures (m >> 25) & 31 < 32 && (m >> 20) & 31 < 32 && (m >> 15) & 31 < 32 && (m >> 10) & 31 < 32
    ensures (m >> 5) & 31 < 32 && m & 31 < 32
  {
  }

  lemma PackOne(s: seq<bv32>)
    requires Six(POLYMOD, s)
    ensures Step(Step(Step(Step(Step(Step(0, s[0]), s[1]), s[2]), s[3]), s[4]), s[5]) == Pack(s)
  {
    FlatFromZero(s[0], s[1], s[2], s[3], s[4], s[5]);
    StepIsFlat(0, s[0]);
    var r1 := Flat(0, s[0]);
    StepIsFlat(r1, s[1]);
    var r2 := Flat(r1, s[1]);
    StepIsFlat(r2, s[2]);
    var r3 := Flat(r2, s[2]);
    StepIsFlat(r3, s[3]);
    var r4 := Flat(r3, s[3]);
    StepIsFlat(r4, s[4]);
    StepIsFlat(Flat(r4, s[4]), s[5]);
  }

  lemma UnpackOne(s: seq<bv32>)
    requires Six(POLYMOD, s)
    ensures Unpack(Pack(s)) == s
  {
    SymbolsOut(s[0], s[1], s[2], s[3], s[4], s[5]);
  }

  lemma RepackOne(w: bv32)
    requires Small(w)
    ensures Six(POLYMOD, Unpack(w)) && Pack(Unpack(w)) == w
  {
    WordOut(w);
  }

  lemma StepPacks()
    ensures Packs(POLYMOD)
  {
    var m := POLYMOD;
    forall s | Six(m, s)
      ensures Step(Step(Step(Step(Step(Step(0, s[0]), s[1]), s[2]), s[3]), s[4]), s[5]) == Pack(s)
      ensures Unpack(Pack(s)) == s
    {
      PackOne(s);
      UnpackOne(s);
    }
    forall w | Small(w) ensures Six(m, Unpack(w)) && Pack(Unpack(w)) == w {
      RepackOne(w);
    }
  }

  /** polymod's register is a linear one in which six symbols are just packed. */
  lemma PolymodIsGood()
    ensures Good(POLYMOD)
  {
    XorIsLawful();
    StepIsLinear();
    StepIsInRange();
    StepPacks();
  }

  /** Six symbols at the end of words that take the register to the target. */
  lemma EndsRight(m: Machine<bv32>, x: seq<bv32>, target: bv32, s: seq<bv32>)
    requires Good(m) && m.small(1) && m.small(target) && Six(m, s) && forall i :: 0 <= i < |x| ==> m.small(x[i])
    ensures Run(m, 1, x + s) == target <==> s == m.unpack(m.xor(Run(m, 1, x + Zeros(m, 6)), target))
  {
    RunConcat(m, 1, x, s);
    RunConcat(m, 1, x, Zeros(m, 6));
    RunSmall(m, 1, x);
    ChecksumIsUnique(m, Run(m, 1, x), target, s);
  }

  lemma PolymodEndsRight(x: seq<bv32>, target: bv32, s: seq<bv32>)
    requires Small(target) && Six(POLYMOD, s) && forall i :: 0 <= i < |x| ==> Small(x[i])
    ensures Run(POLYMOD, 1, x + s) == target <==>
            s == POLYMOD.unpack(POLYMOD.xor(Run(POLYMOD, 1, x + Zeros(POLYMOD, 6)), target))
  {
    PolymodIsGood();
    EndsRight(POLYMOD, x, target, s);
  }

  lemma UnpackIs(w: bv32, t: bv32)
    ensures POLYMOD.unpack(POLYMOD.xor(w, t)) == Unpack(Xor(w, t))
  {
  }

  /** The six symbols that take polymod to the target. */
  function Ending(x: seq<bv32>, target: bv32): (s: seq<bv32>)
    ensures |s| == 6 && forall i :: 0 <= i < 6 ==> Symbol(s[i])
  {
    var mod := Xor(Poly(x + Zeros(POLYMOD, 6)), target);
    UnpackSymbols(mod);
    Unpack(mod)
  }

  lemma UnpackSymbols(w: bv32)
    ensures |Unpack(w)| == 6 && forall i :: 0 <= i < 6 ==> Symbol(Unpack(w)[i])
  {
  }

  lemma PolyEndsRight(x: seq<bv32>, target: bv32, s: seq<bv32>)
    requires Small(target) && |s| == 6 && forall i :: 0 <= i < |s| ==> Symbol(s[i])
    requires forall i :: 0 <= i < |x| ==> Small(x[i])
    ensures Poly(x + s) == target <==> s == Ending(x, target)
  {
    PolymodEndsRight(x, target, s);
    UnpackIs(Poly(x + Zeros(POLYMOD, 6)), target);
  }

  /** Two words that differ only inside six consecutive symbols have different checksums. */
  lemma PolyBurst(before: seq<bv32>, x: seq<bv32>, y: seq<bv32>, after: seq<bv32>)
    requires |x| == |y| == 6 && x != y
    requires (forall i :: 0 <= i < 6 ==> Symbol(x[i])) && (forall i :: 0 <= i < 6 ==> Symbol(y[i]))
    ensures Poly(before + x + after) != Poly(before + y + after)
  {
    PolymodIsGood();
    BurstChangesRun(POLYMOD, 1, before, x, y, after);
  }
}
