/** planSpend and planMaxSpend: largest-first coin selection against a weight model. */
module CoinSelect {
  import opened Common
  import opened Builders
  import opened Positional

  const TX_OVERHEAD_WU := 42
  const P2TR_INPUT_WU := 230
  const P2WPKH_INPUT_WU := 272
  const P2TR_OUTPUT_WU := 172

  function InputCountExtraWu(n: nat): nat {
    if n < 0xfd then 0 else 8
  }

  function InputWeight(u: Coin): int {
    if u.v0 then P2WPKH_INPUT_WU else P2TR_INPUT_WU
  }

  /** An absent or empty recipient script is priced as P2TR. */
  function RecipientWeight(script: Option<Bytes>): nat {
    if script == None || script.value == [] then P2TR_OUTPUT_WU else (9 + |script.value|) * 4
  }

  function InputsWeight(us: seq<Coin>): int {
    Sum(us, InputWeight)
  }

  function Total(us: seq<Coin>): int {
    Sum(us, CoinValue)
  }

  /** weight to vsize, rounding up, and then the fee, rounding up again */
  function FeeOfWeight(weight: nat, rate: nat): nat {
    ((weight + 3) / 4 * rate + 999) / 1000
  }

  /** The planned weight of n inputs that weigh inputsWu together, with a change output or without. */
  function PlanWeight(n: nat, inputsWu: int, script: Option<Bytes>, change: bool): int {
    TX_OVERHEAD_WU + InputCountExtraWu(n) + inputsWu + RecipientWeight(script) + if change then P2TR_OUTPUT_WU else 0
  }

  lemma {:induction false} InputsWeightBounds(us: seq<Coin>)
    ensures P2TR_INPUT_WU * |us| <= InputsWeight(us) <= P2WPKH_INPUT_WU * |us|
  {
    if us != [] {
      InputsWeightBounds(us[..|us| - 1]);
    }
  }

  function WeightOf(us: seq<Coin>, script: Option<Bytes>, change: bool): (w: nat) {
    InputsWeightBounds(us);
    PlanWeight(|us|, InputsWeight(us), script, change)
  }

  function SpendFee(us: seq<Coin>, rate: nat, script: Option<Bytes>): nat {
    FeeOfWeight(WeightOf(us, script, true), rate)
  }

  datatype Plan = Plan(inputs: seq<Coin>, feeSats: nat, changeSats: int)

  /** These coins pay the amount and their own fee. */
  predicate Covers(us: seq<Coin>, amount: int, rate: nat, script: Option<Bytes>) {
    Total(us) >= amount + SpendFee(us, rate, script)
  }

  predicate Descending(us: seq<Coin>) {
    forall i, j :: 0 <= i < j < |us| ==> us[i].valueSats >= us[j].valueSats
  }

  /** Any descending arrangement of the coins: the source's comparator leaves ties to the sort. */
  ghost predicate SortOf(sorted: seq<Coin>, utxos: seq<Coin>) {
    Descending(sorted) && multiset(sorted) == multiset(utxos)
  }

  /** The shortest prefix longer than n that covers. */
  function PlanFrom(sorted: seq<Coin>, n: nat, amount: int, rate: nat, script: Option<Bytes>): Option<Plan>
    requires n <= |sorted|
    decreases |sorted| - n
  {
    if n == |sorted| then None
    else if Covers(sorted[..n + 1], amount, rate, script) then
      var fee := SpendFee(sorted[..n + 1], rate, script);
      Some(Plan(sorted[..n + 1], fee, Total(sorted[..n + 1]) - amount - fee))
    else PlanFrom(sorted, n + 1, amount, rate, script)
  }

  method InsertDescending(x: Coin, us: seq<Coin>) returns (r: seq<Coin>)
    requires Descending(us)
    ensures Descending(r) && multiset(r) == multiset(us) + multiset{x}
  {
    var k := 0;
    while k < |us| && us[k].valueSats >= x.valueSats
      invariant 0 <= k <= |us| && forall i :: 0 <= i < k ==> us[i].valueSats >= x.valueSats
    {
      k := k + 1;
    }
    r := us[..k] + [x] + us[k..];
    assert us == us[..k] + us[k..];
  }

  method SortDescending(utxos: seq<Coin>) returns (sorted: seq<Coin>)
    ensures SortOf(sorted, utxos)
  {
    sorted := [];
    for i := 0 to |utxos|
      invariant SortOf(sorted, utxos[..i])
    {
      sorted := InsertDescending(utxos[i], sorted);
      assert utxos[..i + 1] == utxos[..i] + [utxos[i]];
    }
    assert utxos[..|utxos|] == utxos;
  }

  /** planSpend. None is its RangeError: insufficient funds for amount + fee. */
  method PlanSpend(utxos: seq<Coin>, amount: int, rate: nat, script: Option<Bytes>) returns (plan: Option<Plan>)
    ensures exists sorted :: SortOf(sorted, utxos) && plan == PlanFrom(sorted, 0, amount, rate, script)
  {
    var sorted := SortDescending(utxos);
    var inputs: seq<Coin> := [];
    var total := 0;
    var inputsWu := 0;
    var recipientWu := RecipientWeight(script);
    ghost var answer := PlanFrom(sorted, 0, amount, rate, script);
    for i := 0 to |sorted|
      invariant inputs == sorted[..i] && total == Total(inputs) && inputsWu == InputsWeight(inputs)
      invariant answer == PlanFrom(sorted, i, amount, rate, script)
    {
      var u := sorted[i];
      inputs := inputs + [u];
      total := total + u.valueSats;
      inputsWu := inputsWu + InputWeight(u);
      assert inputs[..i] == sorted[..i] && inputs == sorted[..i + 1];
      WeightNow(inputs, script);
      var weight: nat := TX_OVERHEAD_WU + InputCountExtraWu(|inputs|) + inputsWu + recipientWu + P2TR_OUTPUT_WU;
      var feeSats := Price(weight, rate);
      var changeSats := total - amount - feeSats;
      PlanStep(sorted, i, amount, rate, script);
      if changeSats >= 0 {
        plan := Some(Plan(inputs, feeSats, changeSats));
        return;
      }
    }
    plan := None;
  }

  /** weight to vsize to fee */
  method Price(weight: nat, rate: nat) returns (feeSats: nat)
    ensures feeSats == FeeOfWeight(weight, rate)
  {
    var vsize := (weight + 3) / 4;
    feeSats := (vsize * rate + 999) / 1000;
  }

  /** The running sums weigh the coins taken so far. */
  lemma WeightNow(us: seq<Coin>, script: Option<Bytes>)
    ensures WeightOf(us, script, true)
            == TX_OVERHEAD_WU + InputCountExtraWu(|us|) + InputsWeight(us) + RecipientWeight(script) + P2TR_OUTPUT_WU
  {
  }

  lemma PlanStep(sorted: seq<Coin>, i: nat, amount: int, rate: nat, script: Option<Bytes>)
    requires i < |sorted|
    ensures var taken := sorted[..i + 1];
            var fee := SpendFee(taken, rate, script);
            PlanFrom(sorted, i, amount, rate, script) ==
            if Total(taken) - amount - fee >= 0 then Some(Plan(taken, fee, Total(taken) - amount - fee))
            else PlanFrom(sorted, i + 1, amount, rate, script)
  {
  }

  datatype MaxPlan = MaxPlan(inputs: seq<Coin>, feeSats: nat, amountSats: int)

  /** planMaxSpend: every coin in, one output out. None is its RangeError. */
  function PlanMaxSpend(utxos: seq<Coin>, rate: nat, script: Option<Bytes>): Option<MaxPlan> {
    if utxos == [] then None
    else
      var fee := FeeOfWeight(WeightOf(utxos, script, false), rate);
      if Total(utxos) - fee <= 0 then None else Some(MaxPlan(utxos, fee, Total(utxos) - fee))
  }

  // ---- what the selection promises ----

  /** The plan is the first covering prefix, and there is none only when no prefix covers. */
  lemma {:induction false} PlanIsFirst(sorted: seq<Coin>, n: nat, amount: int, rate: nat, script: Option<Bytes>)
    requires n <= |sorted|
    ensures var r := PlanFrom(sorted, n, amount, rate, script);
            match r
            case None => forall k :: n < k <= |sorted| ==> !Covers(sorted[..k], amount, rate, script)
            case Some(plan) =>
              var k := |plan.inputs|;
              && n < k <= |sorted| && plan.inputs == sorted[..k] && Covers(plan.inputs, amount, rate, script)
              && plan.feeSats == SpendFee(plan.inputs, rate, script)
              && plan.changeSats == Total(plan.inputs) - amount - plan.feeSats
              && forall j :: n < j < k ==> !Covers(sorted[..j], amount, rate, script)
    decreases |sorted| - n
  {
    if n < |sorted| && !Covers(sorted[..n + 1], amount, rate, script) {
      PlanIsFirst(sorted, n + 1, amount, rate, script);
    }
  }

  // ---- the price ----

  /** v is the virtual size: the least number of vbytes, of four units each, that holds the weight. */
  predicate VirtualSize(v: nat, weight: nat) {
    4 * (v - 1) < weight <= 4 * v
  }

  /** fee is the least number of satoshis worth the rate, per thousand vbytes. */
  predicate LeastFee(fee: nat, v: nat, rate: nat) {
    1000 * (fee - 1) < rate * v <= 1000 * fee
  }

  /** What relay policy asks of a transaction of this weight. */
  ghost predicate RelayMinimum(fee: nat, weight: nat, rate: nat) {
    exists v: nat :: VirtualSize(v, weight) && LeastFee(fee, v, rate)
  }

  /** The planners price a weight at exactly the relay minimum. */
  lemma PriceIsRelayMinimum(fee: nat, weight: nat, rate: nat)
    ensures fee == FeeOfWeight(weight, rate) <==> RelayMinimum(fee, weight, rate)
  {
    var v := (weight + 3) / 4;
    assert VirtualSize(v, weight);
    LeastFeeIs(v, rate);
    if RelayMinimum(fee, weight, rate) {
      var u: nat :| VirtualSize(u, weight) && LeastFee(fee, u, rate);
      assert u == v;
      LeastFeeUnique(fee, FeeOfWeight(weight, rate), v, rate);
    }
  }

  lemma OneRelayMinimum(weight: nat, rate: nat)
    ensures RelayMinimum(FeeOfWeight(weight, rate), weight, rate)
    ensures forall fee: nat :: RelayMinimum(fee, weight, rate) ==> fee == FeeOfWeight(weight, rate)
  {
    forall fee: nat ensures RelayMinimum(fee, weight, rate) <==> fee == FeeOfWeight(weight, rate) {
      PriceIsRelayMinimum(fee, weight, rate);
    }
  }

  lemma LeastFeeIs(v: nat, rate: nat)
    ensures LeastFee((v * rate + 999) / 1000, v, rate)
  {
    assert v * rate == rate * v;
  }

  lemma LeastFeeUnique(f: nat, g: nat, v: nat, rate: nat)
    requires LeastFee(f, v, rate) && LeastFee(g, v, rate)
    ensures f == g
  {
  }

  /** A plan pays, to the satoshi, the relay minimum of its planned weight with a change output. */
  lemma PlanPaysRelayMinimum(sorted: seq<Coin>, amount: int, rate: nat, script: Option<Bytes>)
    requires PlanFrom(sorted, 0, amount, rate, script).Some?
    ensures var plan := PlanFrom(sorted, 0, amount, rate, script).value;
            && plan.inputs != [] && RelayMinimum(plan.feeSats, WeightOf(plan.inputs, script, true), rate)
            && Total(plan.inputs) == amount + plan.feeSats + plan.changeSats
  {
    PlanIsFirst(sorted, 0, amount, rate, script);
    var plan := PlanFrom(sorted, 0, amount, rate, script).value;
    PriceIsRelayMinimum(plan.feeSats, WeightOf(plan.inputs, script, true), rate);
  }

  /** planMaxSpend takes every coin, pays the relay minimum of their weight with one output and sends the rest;
      it throws exactly when there is no coin or no rest. */
  lemma MaxPlanIsExact(utxos: seq<Coin>, rate: nat, script: Option<Bytes>, fee: nat)
    requires RelayMinimum(fee, WeightOf(utxos, script, false), rate)
    ensures PlanMaxSpend(utxos, rate, script) ==
            if utxos != [] && Total(utxos) > fee then Some(MaxPlan(utxos, fee, Total(utxos) - fee)) else None
  {
    PriceIsRelayMinimum(fee, WeightOf(utxos, script, false), rate);
  }

  /** Without a recipient script the recipient is priced as any P2TR one. */
  lemma DefaultRecipientIsP2tr(us: seq<Coin>, script: Bytes, change: bool)
    requires |script| == 34
    ensures WeightOf(us, None, change) == WeightOf(us, Some([]), change) == WeightOf(us, Some(script), change)
  {
  }

  lemma {:induction false} WeightStep(us: seq<Coin>)
    requires us != []
    ensures InputsWeight(us[..|us| - 1]) + P2TR_INPUT_WU <= InputsWeight(us)
    ensures Total(us) == Total(us[..|us| - 1]) + us[|us| - 1].valueSats
  {
  }

  lemma FeeMono(w1: nat, w2: nat, rate: nat)
    requires w1 <= w2
    ensures FeeOfWeight(w1, rate) <= FeeOfWeight(w2, rate)
  {
    MulMono((w1 + 3) / 4, (w2 + 3) / 4, rate);
  }

  /** One more coin never lowers the fee. */
  lemma FeeGrows(us: seq<Coin>, rate: nat, script: Option<Bytes>)
    requires us != []
    ensures SpendFee(us[..|us| - 1], rate, script) <= SpendFee(us, rate, script)
  {
    WeightStep(us);
    FeeMono(WeightOf(us[..|us| - 1], script, true), WeightOf(us, script, true), rate);
  }

  /** The chosen coins are among the given ones and add up to amount, fee and change; for a positive
      amount none of them is a zero-value (DigiDollar) coin, whatever the caller passed in. */
  lemma PlanAddsUp(sorted: seq<Coin>, utxos: seq<Coin>, amount: int, rate: nat, script: Option<Bytes>)
    requires SortOf(sorted, utxos) && PlanFrom(sorted, 0, amount, rate, script).Some?
    ensures var plan := PlanFrom(sorted, 0, amount, rate, script).value;
            && multiset(plan.inputs) <= multiset(utxos)
            && Total(plan.inputs) == amount + plan.feeSats + plan.changeSats && plan.changeSats >= 0
            && (amount > 0 ==> forall i :: 0 <= i < |plan.inputs| ==> plan.inputs[i].valueSats > 0)
  {
    PlanIsFirst(sorted, 0, amount, rate, script);
    var plan := PlanFrom(sorted, 0, amount, rate, script).value;
    var k := |plan.inputs|;
    assert sorted == sorted[..k] + sorted[k..];
    if amount > 0 {
      LastIsNeeded(sorted, k, amount, rate, script);
    }
  }

  /** The last coin of the shortest covering prefix has value, so all before it do. */
  lemma LastIsNeeded(sorted: seq<Coin>, k: nat, amount: int, rate: nat, script: Option<Bytes>)
    requires 0 < k <= |sorted| && Descending(sorted) && amount > 0
    requires Covers(sorted[..k], amount, rate, script)
    requires k > 1 ==> !Covers(sorted[..k - 1], amount, rate, script)
    ensures sorted[k - 1].valueSats > 0
  {
    var us := sorted[..k];
    WeightStep(us);
    assert us[..k - 1] == sorted[..k - 1];
    FeeGrows(us, rate, script);
    if k == 1 {
      assert us[..0] == [];
    }
  }

  // ---- optimality on coins of one type ----

  predicate OneType(us: seq<Coin>, v0: bool) {
    forall i :: 0 <= i < |us| ==> us[i].v0 == v0
  }

  lemma {:induction false} OneTypeWeight(us: seq<Coin>, v0: bool)
    requires OneType(us, v0)
    ensures InputsWeight(us) == (if v0 then P2WPKH_INPUT_WU else P2TR_INPUT_WU) * |us|
  {
    if us != [] {
      OneTypeWeight(us[..|us| - 1], v0);
    }
  }

  lemma TotalHead(us: seq<Coin>)
    requires us != []
    ensures Total(us) == us[0].valueSats + Total(us[1..])
  {
    assert us == [us[0]] + us[1..];
    SumConcat([us[0]], us[1..], CoinValue);
    assert [us[0]][..0] == [];
    assert Sum([us[0]], CoinValue) == Sum([us[0]][..0], CoinValue) + CoinValue(us[0]);
  }

  lemma TotalCut(us: seq<Coin>, i: nat)
    requires i < |us|
    ensures Total(us) == us[i].valueSats + Total(us[..i] + us[i + 1..])
    ensures multiset(us) == multiset(us[..i] + us[i + 1..]) + multiset{us[i]}
  {
    assert us == us[..i] + us[i..];
    SumConcat(us[..i], us[i..], CoinValue);
    SumConcat(us[..i], us[i + 1..], CoinValue);
    TotalHead(us[i..]);
    assert us[i..] == [us[i]] + us[i + 1..];
  }

  /** No k coins are worth more than the k largest. */
  lemma {:induction false} LargestAreWorthMost(sorted: seq<Coin>, chosen: seq<Coin>)
    requires Descending(sorted) && multiset(chosen) <= multiset(sorted)
    ensures |chosen| <= |sorted| && Total(chosen) <= Total(sorted[..|chosen|])
    decreases |chosen|
  {
    if chosen != [] {
      assert chosen[0] in multiset(sorted);
      var i := PreferFirst(sorted, chosen);
      var others := chosen[..i] + chosen[i + 1..];
      OthersAreInRest(sorted, chosen, i);
      LargestAreWorthMost(sorted[1..], others);
      TotalCut(chosen, i);
      assert chosen[i] in multiset(sorted);
      WorthMostStep(sorted, |others|);
    }
  }

  /** The largest coin of all if it was chosen, else any. */
  lemma PreferFirst(sorted: seq<Coin>, chosen: seq<Coin>) returns (i: nat)
    requires chosen != [] && sorted != []
    ensures i < |chosen| && (sorted[0] in chosen ==> chosen[i] == sorted[0])
  {
    i := 0;
    if sorted[0] in chosen {
      i :| i < |chosen| && chosen[i] == sorted[0];
    }
  }

  lemma WorthMostStep(sorted: seq<Coin>, k: nat)
    requires k + 1 <= |sorted|
    ensures Total(sorted[..k + 1]) == sorted[0].valueSats + Total(sorted[1..][..k])
  {
    TotalHead(sorted[..k + 1]);
    assert sorted[..k + 1][1..] == sorted[1..][..k];
  }

  lemma OthersAreInRest(sorted: seq<Coin>, chosen: seq<Coin>, i: nat)
    requires i < |chosen| && sorted != [] && multiset(chosen) <= multiset(sorted)
    requires sorted[0] in chosen ==> chosen[i] == sorted[0]
    ensures multiset(chosen[..i] + chosen[i + 1..]) <= multiset(sorted[1..])
  {
    TotalCut(chosen, i);
    assert sorted == [sorted[0]] + sorted[1..];
    assert multiset(sorted) == multiset{sorted[0]} + multiset(sorted[1..]);
    var others := multiset(chosen[..i] + chosen[i + 1..]);
    forall c ensures others[c] <= multiset(sorted[1..])[c] {
      assert multiset(chosen)[c] <= multiset(sorted)[c];
      if sorted[0] !in chosen {
        assert sorted[0] !in multiset(chosen);
      }
    }
  }

  lemma MembersOfType(us: seq<Coin>, all: seq<Coin>, v0: bool)
    requires multiset(us) <= multiset(all) && OneType(all, v0)
    ensures OneType(us, v0)
  {
    forall i | 0 <= i < |us| ensures us[i].v0 == v0 {
      assert us[i] in multiset(all);
    }
  }

  /** On coins of one type, if any choice of coins covers, the same number of largest coins does. */
  lemma LargestCoverToo(sorted: seq<Coin>, v0: bool, chosen: seq<Coin>, amount: int, rate: nat, script: Option<Bytes>)
    requires Descending(sorted) && OneType(sorted, v0)
    requires multiset(chosen) <= multiset(sorted) && Covers(chosen, amount, rate, script)
    ensures |chosen| <= |sorted| && Covers(sorted[..|chosen|], amount, rate, script)
  {
    LargestAreWorthMost(sorted, chosen);
    MembersOfType(chosen, sorted, v0);
    OneTypeWeight(chosen, v0);
    OneTypeWeight(sorted[..|chosen|], v0);
  }

  /** On coins of one type planSpend uses the fewest coins of any covering choice, and throws only when
      no non-empty choice covers the amount and its own fee. */
  lemma FewestCoins(sorted: seq<Coin>, utxos: seq<Coin>, v0: bool, chosen: seq<Coin>, amount: int, rate: nat, script: Option<Bytes>)
    requires SortOf(sorted, utxos) && OneType(utxos, v0)
    requires chosen != [] && multiset(chosen) <= multiset(utxos) && Covers(chosen, amount, rate, script)
    ensures var plan := PlanFrom(sorted, 0, amount, rate, script);
            plan.Some? && |plan.value.inputs| <= |chosen|
  {
    MembersOfType(sorted, utxos, v0);
    LargestCoverToo(sorted, v0, chosen, amount, rate, script);
    PlanIsFirst(sorted, 0, amount, rate, script);
  }

  /** Mixed coins: it still finds a plan, with no more coins, whenever some choice covers the amount and
      a fee priced as if every input were the heavier P2WPKH. */
  lemma MixedCoinsAtTheHeavierPrice(sorted: seq<Coin>, utxos: seq<Coin>, chosen: seq<Coin>, amount: int, rate: nat, script: Option<Bytes>)
    requires SortOf(sorted, utxos) && chosen != [] && multiset(chosen) <= multiset(utxos)
    requires Total(chosen) >= amount + FeeOfWeight(PlanWeight(|chosen|, P2WPKH_INPUT_WU * |chosen|, script, true), rate)
    ensures var plan := PlanFrom(sorted, 0, amount, rate, script);
            plan.Some? && |plan.value.inputs| <= |chosen|
  {
    LargestAreWorthMost(sorted, chosen);
    var top := sorted[..|chosen|];
    InputsWeightBounds(top);
    FeeMono(WeightOf(top, script, true), PlanWeight(|chosen|, P2WPKH_INPUT_WU * |chosen|, script, true), rate);
    assert Covers(top, amount, rate, script);
    PlanIsFirst(sorted, 0, amount, rate, script);
  }

  // ---- exactly when a mix misses nothing ----

  /** What a choice of coins is worth after its own fee. */
  function Net(us: seq<Coin>, rate: nat, script: Option<Bytes>): int {
    Total(us) - SpendFee(us, rate, script)
  }

  /** Whenever some non-empty choice of these coins covers an amount, a plan is found. */
  ghost predicate MissesNothing(sorted: seq<Coin>, rate: nat, script: Option<Bytes>) {
    forall chosen, amount :: chosen != [] && multiset(chosen) <= multiset(sorted) && Covers(chosen, amount, rate, script) ==>
      PlanFrom(sorted, 0, amount, rate, script).Some?
  }

  ghost predicate PrefixReaches(sorted: seq<Coin>, rate: nat, script: Option<Bytes>, net: int) {
    exists k :: 0 < k <= |sorted| && Net(sorted[..k], rate, script) >= net
  }

  lemma PlanIffPrefixReaches(sorted: seq<Coin>, amount: int, rate: nat, script: Option<Bytes>)
    ensures PlanFrom(sorted, 0, amount, rate, script).Some? <==> PrefixReaches(sorted, rate, script, amount)
  {
    PlanIsFirst(sorted, 0, amount, rate, script);
    var plan := PlanFrom(sorted, 0, amount, rate, script);
    if plan.Some? {
      assert Net(sorted[..|plan.value.inputs|], rate, script) >= amount;
    } else if k :| 0 < k <= |sorted| && Net(sorted[..k], rate, script) >= amount {
      assert Covers(sorted[..k], amount, rate, script);
    }
  }

  lemma ReachesLess(sorted: seq<Coin>, rate: nat, script: Option<Bytes>, net: int, amount: int)
    requires PrefixReaches(sorted, rate, script, net) && amount <= net
    ensures PrefixReaches(sorted, rate, script, amount)
  {
    var k :| 0 < k <= |sorted| && Net(sorted[..k], rate, script) >= net;
    assert Net(sorted[..k], rate, script) >= amount;
  }

  /** The coins of one type, in their order. */
  function OfType(us: seq<Coin>, v0: bool): seq<Coin> {
    if us == [] then []
    else
      var last := us[|us| - 1];
      OfType(us[..|us| - 1], v0) + if last.v0 == v0 then [last] else []
  }

  lemma {:induction false} TypeCounts(us: seq<Coin>, v0: bool, c: Coin)
    ensures multiset(OfType(us, v0))[c] == if c.v0 == v0 then multiset(us)[c] else 0
  {
    if us != [] {
      var rest, last := us[..|us| - 1], us[|us| - 1];
      TypeCounts(rest, v0, c);
      assert multiset(us) == multiset(rest) + multiset{last} by {
        assert us == rest + [last];
      }
      assert multiset(OfType(us, v0)) == multiset(OfType(rest, v0)) + if last.v0 == v0 then multiset{last} else multiset{};
    }
  }

  lemma TypeAmong(us: seq<Coin>, all: seq<Coin>, v0: bool)
    requires multiset(us) <= multiset(all)
    ensures multiset(OfType(us, v0)) <= multiset(OfType(all, v0))
  {
    forall c ensures multiset(OfType(us, v0))[c] <= multiset(OfType(all, v0))[c] {
      TypeCounts(us, v0, c);
      TypeCounts(all, v0, c);
    }
  }

  lemma TypeWithin(us: seq<Coin>, v0: bool, c: Coin)
    requires c in OfType(us, v0)
    ensures c in us && c.v0 == v0
  {
    TypeCounts(us, v0, c);
    assert c in multiset(OfType(us, v0)) && c in multiset(us);
  }

  lemma DescendingAppend(us: seq<Coin>, c: Coin)
    requires Descending(us) && forall i :: 0 <= i < |us| ==> us[i].valueSats >= c.valueSats
    ensures Descending(us + [c])
  {
  }

  lemma {:induction false} TypeIsOrdered(us: seq<Coin>, v0: bool)
    requires Descending(us)
    ensures Descending(OfType(us, v0))
  {
    if us != [] {
      var rest, last := us[..|us| - 1], us[|us| - 1];
      var typed := OfType(rest, v0);
      TypeIsOrdered(rest, v0);
      forall i | 0 <= i < |typed| ensures typed[i].valueSats >= last.valueSats {
        TypeWithin(rest, v0, typed[i]);
      }
      DescendingAppend(typed, last);
      assert typed + [] == typed;
    }
  }

  lemma TypeIsOne(us: seq<Coin>, v0: bool)
    ensures OneType(OfType(us, v0), v0)
  {
    forall i | 0 <= i < |OfType(us, v0)| ensures OfType(us, v0)[i].v0 == v0 {
      TypeWithin(us, v0, OfType(us, v0)[i]);
    }
  }

  lemma {:induction false} TypesMakeUp(us: seq<Coin>)
    ensures |us| == |OfType(us, false)| + |OfType(us, true)|
    ensures Total(us) == Total(OfType(us, false)) + Total(OfType(us, true))
    ensures InputsWeight(us) == P2TR_INPUT_WU * |OfType(us, false)| + P2WPKH_INPUT_WU * |OfType(us, true)|
  {
    if us != [] {
      var rest, last := us[..|us| - 1], us[|us| - 1];
      TypesMakeUp(rest);
      assert (OfType(rest, last.v0) + [last])[..|OfType(rest, last.v0)|] == OfType(rest, last.v0);
      assert OfType(rest, !last.v0) + [] == OfType(rest, !last.v0);
    }
  }

  /** The a largest P2TR coins and the b largest P2WPKH coins. */
  function Best(sorted: seq<Coin>, a: nat, b: nat): seq<Coin>
    requires a <= |OfType(sorted, false)| && b <= |OfType(sorted, true)|
  {
    OfType(sorted, false)[..a] + OfType(sorted, true)[..b]
  }

  lemma BestAmong(sorted: seq<Coin>, a: nat, b: nat)
    requires a <= |OfType(sorted, false)| && b <= |OfType(sorted, true)|
    ensures multiset(Best(sorted, a, b)) <= multiset(sorted)
  {
    var light, heavy := OfType(sorted, false), OfType(sorted, true);
    assert light == light[..a] + light[a..] && heavy == heavy[..b] + heavy[b..];
    forall c ensures multiset(light[..a])[c] + multiset(heavy[..b])[c] <= multiset(sorted)[c] {
      TypeCounts(sorted, false, c);
      TypeCounts(sorted, true, c);
    }
  }

  lemma BestAddsUp(sorted: seq<Coin>, a: nat, b: nat)
    requires a <= |OfType(sorted, false)| && b <= |OfType(sorted, true)|
    ensures Total(Best(sorted, a, b)) == Total(OfType(sorted, false)[..a]) + Total(OfType(sorted, true)[..b])
    ensures InputsWeight(Best(sorted, a, b)) == P2TR_INPUT_WU * a + P2WPKH_INPUT_WU * b
  {
    var light, heavy := OfType(sorted, false), OfType(sorted, true);
    TypeIsOne(sorted, false);
    TypeIsOne(sorted, true);
    OneTypeWeight(light[..a], false);
    OneTypeWeight(heavy[..b], true);
    SumConcat(light[..a], heavy[..b], CoinValue);
    SumConcat(light[..a], heavy[..b], InputWeight);
  }

  lemma SameFee(us: seq<Coin>, vs: seq<Coin>, rate: nat, script: Option<Bytes>)
    requires |us| == |vs| && InputsWeight(us) == InputsWeight(vs)
    ensures SpendFee(us, rate, script) == SpendFee(vs, rate, script)
  {
  }

  lemma TypeWorthMost(sorted: seq<Coin>, chosen: seq<Coin>, v0: bool)
    requires Descending(sorted) && multiset(chosen) <= multiset(sorted)
    ensures |OfType(chosen, v0)| <= |OfType(sorted, v0)|
    ensures Total(OfType(chosen, v0)) <= Total(OfType(sorted, v0)[..|OfType(chosen, v0)|])
  {
    TypeAmong(chosen, sorted, v0);
    TypeIsOrdered(sorted, v0);
    LargestAreWorthMost(OfType(sorted, v0), OfType(chosen, v0));
  }

  /** No choice with as many coins of either type is worth more after fees. */
  lemma BestIsWorthMost(sorted: seq<Coin>, chosen: seq<Coin>, rate: nat, script: Option<Bytes>) returns (a: nat, b: nat)
    requires Descending(sorted) && multiset(chosen) <= multiset(sorted)
    ensures a <= |OfType(sorted, false)| && b <= |OfType(sorted, true)| && a + b == |chosen|
    ensures Net(chosen, rate, script) <= Net(Best(sorted, a, b), rate, script)
  {
    a, b := |OfType(chosen, false)|, |OfType(chosen, true)|;
    TypesMakeUp(chosen);
    TypeWorthMost(sorted, chosen, false);
    TypeWorthMost(sorted, chosen, true);
    BestAddsUp(sorted, a, b);
    SameFee(chosen, Best(sorted, a, b), rate, script);
  }

  /** Whatever number of coins of each type is taken, some number of largest coins is worth as much after fees
      as the largest of either type. */
  ghost predicate PrefixesKeepUp(sorted: seq<Coin>, rate: nat, script: Option<Bytes>) {
    forall a: nat, b: nat :: a <= |OfType(sorted, false)| && b <= |OfType(sorted, true)| && a + b > 0 ==>
      PrefixReaches(sorted, rate, script, Net(Best(sorted, a, b), rate, script))
  }

  /** On any mix of coins the selection misses no amount exactly when its prefixes keep up with these
      few choices. */
  lemma MissesNothingIff(sorted: seq<Coin>, rate: nat, script: Option<Bytes>)
    requires Descending(sorted)
    ensures MissesNothing(sorted, rate, script) <==> PrefixesKeepUp(sorted, rate, script)
  {
    if MissesNothing(sorted, rate, script) {
      forall a: nat, b: nat | a <= |OfType(sorted, false)| && b <= |OfType(sorted, true)| && a + b > 0
        ensures PrefixReaches(sorted, rate, script, Net(Best(sorted, a, b), rate, script))
      {
        var amount := Net(Best(sorted, a, b), rate, script);
        BestAmong(sorted, a, b);
        assert Covers(Best(sorted, a, b), amount, rate, script);
        PlanIffPrefixReaches(sorted, amount, rate, script);
      }
    }
    if PrefixesKeepUp(sorted, rate, script) {
      forall chosen, amount | chosen != [] && multiset(chosen) <= multiset(sorted) && Covers(chosen, amount, rate, script)
        ensures PlanFrom(sorted, 0, amount, rate, script).Some?
      {
        var a, b := BestIsWorthMost(sorted, chosen, rate, script);
        ReachesLess(sorted, rate, script, Net(Best(sorted, a, b), rate, script), amount);
        PlanIffPrefixReaches(sorted, amount, rate, script);
      }
    }
  }

  // ---- where the promise stops: mixed coins ----

  const DUSTY_TXID: TxWire.Hash32 := seq(32, i => 7)
  const BIG := Coin(DUSTY_TXID, 0, 100_000, 1, false)
  const HEAVY := Coin(DUSTY_TXID, 1, 6_001, 2, true)
  const LIGHT := Coin(DUSTY_TXID, 2, 6_000, 3, false)

  lemma TwoTotal(a: Coin, b: Coin)
    ensures Total([a, b]) == a.valueSats + b.valueSats
    ensures InputsWeight([a, b]) == InputWeight(a) + InputWeight(b)
  {
    assert [a, b][..1] == [a] && [a][..0] == [];
    assert Sum([a], CoinValue) == Sum([a][..0], CoinValue) + CoinValue(a);
    assert Sum([a], InputWeight) == Sum([a][..0], InputWeight) + InputWeight(a);
  }

  /** With both types present planSpend can throw although a choice covers: it picks a coin one satoshi
      larger that costs 1050 satoshis more to spend. */
  lemma MixedCoinsCanMiss(sorted: seq<Coin>)
    requires sorted == [BIG, HEAVY, LIGHT]
    ensures SortOf(sorted, [BIG, LIGHT, HEAVY])
    ensures Covers([BIG, LIGHT], 84_800, 100_000, None)
    ensures PlanFrom(sorted, 0, 84_800, 100_000, None) == None
  {
    assert multiset(sorted) == multiset([BIG, LIGHT, HEAVY]);
    TwoTotal(BIG, LIGHT);
    TwoTotal(BIG, HEAVY);
    assert sorted[..1] == [BIG] && sorted[..2] == [BIG, HEAVY] && sorted[..3] == sorted && sorted[..0] == [];
    WeightStep(sorted[..1]);
    assert Total(sorted[..1]) == 100_000;
    assert InputsWeight(sorted[..1]) == 230;
    assert InputsWeight(sorted) == InputsWeight(sorted[..2]) + 230;
    assert !Covers(sorted[..1], 84_800, 100_000, None);
    assert !Covers(sorted[..2], 84_800, 100_000, None);
    assert !Covers(sorted[..3], 84_800, 100_000, None);
    assert PlanFrom(sorted, 3, 84_800, 100_000, None) == None;
    assert PlanFrom(sorted, 2, 84_800, 100_000, None) == None;
    assert PlanFrom(sorted, 1, 84_800, 100_000, None) == None;
  }
}
