/** The fee planSpend and planMaxSpend set aside, against the BIP-141 size of the transaction that is
    actually serialized from their plans. */
module SpendWeight {
  import opened Common
  import opened TxWire
  import opened Builders
  import opened CoinSelect

  /** Transaction weight: base size * 3 + total size. */
  function Weight(b: Built): nat
    requires Fits(b.tx, b.stacks)
  {
    3 * |Stripped(b.tx)| + |Wire(b.tx, b.stacks)|
  }

  /** It pays the relay minimum for its own virtual size, or more. */
  ghost predicate PaysRelay(b: Built, rate: nat)
    requires Fits(b.tx, b.stacks)
  {
    exists fee: nat :: RelayMinimum(fee, Weight(b), rate) && Paid(b) >= fee
  }

  lemma PaysRelayIff(b: Built, rate: nat)
    requires Fits(b.tx, b.stacks)
    ensures PaysRelay(b, rate) <==> Paid(b) >= FeeOfWeight(Weight(b), rate)
  {
    OneRelayMinimum(Weight(b), rate);
  }

  // ---- lengths on the wire ----

  function VarintLen(n: nat): nat {
    if n < 0xfd then 1 else 3
  }

  lemma WeightFromParts(tx: Tx, ws: seq<Stack>)
    requires Fits(tx, ws)
    ensures 3 * |Stripped(tx)| + |Wire(tx, ws)| ==
            4 * (8 + VarintLen(|tx.inputs|) + |InsBytes(tx.inputs)| + VarintLen(|tx.outputs|) + |OutsBytes(tx.outputs)|)
            + 2 + |StacksBytes(ws)|
  {
    assert |Body(tx)| == VarintLen(|tx.inputs|) + |InsBytes(tx.inputs)| + VarintLen(|tx.outputs|) + |OutsBytes(tx.outputs)|;
  }

  lemma {:induction false} InputsLength(ins: seq<TxIn>)
    ensures |InsBytes(ins)| == 41 * |ins|
  {
    if ins != [] {
      InputsLength(ins[1..]);
    }
  }

  lemma OneOutLength(o: TxOut)
    requires |o.script| <= MAX_VARINT
    ensures |OutBytes(o)| == 8 + VarintLen(|o.script|) + |o.script|
  {
  }

  lemma OutputsLength(first: TxOut, more: seq<TxOut>)
    requires OutsFit([first] + more) && |more| <= 1
    ensures |first.script| <= MAX_VARINT && OutsFit(more)
    ensures |OutsBytes([first] + more)| ==
            8 + VarintLen(|first.script|) + |first.script|
            + if more == [] then 0 else 8 + VarintLen(|more[0].script|) + |more[0].script|
  {
    var outs := [first] + more;
    assert outs[0] == first && outs[1..] == more;
    OneOutLength(first);
    assert |OutsBytes(outs)| == |OutBytes(first)| + |OutsBytes(more)|;
    if more != [] {
      assert more[0] == outs[1];
      OneOutLength(more[0]);
      assert more[1..] == [];
      assert |OutsBytes(more)| == |OutBytes(more[0])| + |OutsBytes(more[1..])|;
    }
  }

  // ---- witnesses ----

  /** How far a P2WPKH signature stays below the 72 bytes it is budgeted at; a P2TR one is always 64. */
  function Slack(c: Crypto, u: Coin, h: SigHash): (k: nat)
    ensures !u.v0 ==> k == 0
  {
    if u.v0 then 72 - |c.ecdsa(u.key, h)| else 0
  }

  function TotalSlack(c: Crypto, us: seq<Coin>, tx: Tx, spent: seq<TxOut>): nat {
    if us == [] then 0
    else TotalSlack(c, us[..|us| - 1], tx, spent) + Slack(c, us[|us| - 1], SigHash(tx, spent, |us| - 1, false))
  }

  lemma TwoItems(x: Bytes, y: Bytes)
    requires |x| < 0xfd && |y| < 0xfd
    ensures ItemsFit([x, y]) && |ItemsBytes([x, y])| == 2 + |x| + |y|
  {
    var w: Stack := [x, y];
    assert w[1..] == [y] && w[1..][1..] == [];
    assert ItemsBytes(w) == VarBytes(x) + ItemsBytes(w[1..]);
    assert ItemsBytes(w[1..]) == VarBytes(y) + ItemsBytes(w[1..][1..]);
  }

  lemma OneStackLength(c: Crypto, u: Coin, h: SigHash)
    ensures StackFits(SignDgbLeg(c, u, h))
    ensures |StackBytes(SignDgbLeg(c, u, h))| == InputWeight(u) - 164 - Slack(c, u, h)
  {
    var w := SignDgbLeg(c, u, h);
    if u.v0 {
      TwoItems(c.ecdsa(u.key, h), c.pubKey(u.key));
    } else {
      assert w[1..] == [];
      assert ItemsBytes(w) == VarBytes(w[0]) + ItemsBytes(w[1..]);
    }
  }

  lemma {:induction false} StacksAppend(ws: seq<Stack>, w: Stack)
    requires StacksFit(ws) && StackFits(w)
    ensures StacksFit(ws + [w]) && |StacksBytes(ws + [w])| == |StacksBytes(ws)| + |StackBytes(w)|
  {
    if ws == [] {
      assert ws + [w] == [w] && [w][1..] == [];
      assert StacksBytes([w]) == StackBytes(w) + StacksBytes([]);
    } else {
      assert (ws + [w])[1..] == ws[1..] + [w];
      StacksAppend(ws[1..], w);
    }
  }

  lemma {:induction false} StacksLength(c: Crypto, us: seq<Coin>, tx: Tx, spent: seq<TxOut>)
    ensures StacksFit(SpendStacks(c, us, tx, spent))
    ensures |StacksBytes(SpendStacks(c, us, tx, spent))| == InputsWeight(us) - 164 * |us| - TotalSlack(c, us, tx, spent)
  {
    if us != [] {
      var n := |us| - 1;
      StacksLength(c, us[..n], tx, spent);
      var h := SigHash(tx, spent, n, false);
      OneStackLength(c, us[n], h);
      StacksAppend(SpendStacks(c, us[..n], tx, spent), SignDgbLeg(c, us[n], h));
      assert SpendStacks(c, us, tx, spent) == SpendStacks(c, us[..n], tx, spent) + [SignDgbLeg(c, us[n], h)];
    }
  }

  lemma {:induction false} NoSlackOnP2tr(c: Crypto, us: seq<Coin>, tx: Tx, spent: seq<TxOut>)
    requires OneType(us, false)
    ensures TotalSlack(c, us, tx, spent) == 0
  {
    if us != [] {
      NoSlackOnP2tr(c, us[..|us| - 1], tx, spent);
    }
  }

  // ---- the weight of a built spend ----

  /** varint() accepts every length of the transaction. */
  lemma SpendFits(c: Crypto, us: seq<Coin>, script: Bytes, amount: int, changeScript: Bytes, fee: int)
    requires BuildSpend(c, us, script, amount, changeScript, fee).Ok?
    requires |us| <= MAX_VARINT && |script| <= MAX_VARINT && |changeScript| <= MAX_VARINT
    ensures var b := BuildSpend(c, us, script, amount, changeScript, fee).value; Fits(b.tx, b.stacks)
  {
    var b := BuildSpend(c, us, script, amount, changeScript, fee).value;
    StacksLength(c, us, b.tx, b.spent);
  }

  /** The planned weight is the weight of the transaction, less what short signatures save, plus the two
      bytes that a recipient script of 253 bytes or more adds to its length prefix. */
  lemma ExactWeight(c: Crypto, us: seq<Coin>, script: Bytes, amount: int, changeScript: Bytes, fee: int)
    requires BuildSpend(c, us, script, amount, changeScript, fee).Ok?
    requires |us| <= MAX_VARINT && 0 < |script| <= MAX_VARINT && |changeScript| == 34
    ensures var b := BuildSpend(c, us, script, amount, changeScript, fee).value;
            && Fits(b.tx, b.stacks)
            && Weight(b) == WeightOf(us, Some(script), b.changeSats > 0) - TotalSlack(c, us, b.tx, b.spent)
                            + if |script| < 0xfd then 0 else 8
  {
    var b := BuildSpend(c, us, script, amount, changeScript, fee).value;
    var more := ChangeOut(b.changeSats, changeScript);
    assert b.tx.outputs == [TxOut(amount, script)] + more;
    SpendFits(c, us, script, amount, changeScript, fee);
    WeightFromParts(b.tx, b.stacks);
    InputsLength(b.tx.inputs);
    StacksLength(c, us, b.tx, b.spent);
    OutputsLength(TxOut(amount, script), more);
  }

  /** The script the fee was priced for: the one paid, or a P2TR-sized one when none was given. */
  predicate PricedFor(given: Option<Bytes>, script: Bytes) {
    0 < |script| <= 0xfc && (given == Some(script) || ((given == None || given == Some([])) && |script| <= 34))
  }

  lemma BuiltWithinPlan(c: Crypto, us: seq<Coin>, given: Option<Bytes>, script: Bytes, amount: int, changeScript: Bytes,
                        fee: int, change: bool, rate: nat)
    requires BuildSpend(c, us, script, amount, changeScript, fee).Ok?
    requires |us| <= MAX_VARINT && |changeScript| == 34 && PricedFor(given, script)
    requires BuildSpend(c, us, script, amount, changeScript, fee).value.changeSats > 0 ==> change
    requires fee == FeeOfWeight(WeightOf(us, given, change), rate)
    ensures var b := BuildSpend(c, us, script, amount, changeScript, fee).value;
            Fits(b.tx, b.stacks) && PaysRelay(b, rate)
  {
    var b := BuildSpend(c, us, script, amount, changeScript, fee).value;
    ExactWeight(c, us, script, amount, changeScript, fee);
    FeeMono(Weight(b), WeightOf(us, given, change), rate);
    SpendConserves(c, us, script, amount, changeScript, fee);
    PaysRelayIff(b, rate);
  }

  /** A transaction built from a planSpend plan pays the relay fee for its own virtual size, at every
      mix of coins, on both sides of the 253-input step, with the change kept or folded. */
  lemma PlannedSpendPaysItsWay(c: Crypto, sorted: seq<Coin>, amount: int, rate: nat, given: Option<Bytes>, script: Bytes,
                               changeScript: Bytes)
    requires PlanFrom(sorted, 0, amount, rate, given).Some?
    requires |PlanFrom(sorted, 0, amount, rate, given).value.inputs| <= MAX_VARINT
    requires |changeScript| == 34 && PricedFor(given, script)
    ensures var plan := PlanFrom(sorted, 0, amount, rate, given).value;
            var r := BuildSpend(c, plan.inputs, script, amount, changeScript, plan.feeSats);
            && r.Ok? && r.value.changeSats == Folded(plan.changeSats)
            && Fits(r.value.tx, r.value.stacks) && PaysRelay(r.value, rate)
  {
    var plan := PlanFrom(sorted, 0, amount, rate, given).value;
    PlanIsFirst(sorted, 0, amount, rate, given);
    BuiltWithinPlan(c, plan.inputs, given, script, amount, changeScript, plan.feeSats, true, rate);
  }

  /** The same for send-everything: one output, nothing left over, the fee exactly as planned. */
  lemma PlannedMaxPaysItsWay(c: Crypto, utxos: seq<Coin>, rate: nat, given: Option<Bytes>, script: Bytes, changeScript: Bytes)
    requires PlanMaxSpend(utxos, rate, given).Some? && |utxos| <= MAX_VARINT
    requires |changeScript| == 34 && PricedFor(given, script)
    ensures var plan := PlanMaxSpend(utxos, rate, given).value;
            var r := BuildSpend(c, plan.inputs, script, plan.amountSats, changeScript, plan.feeSats);
            && r.Ok? && r.value.tx.outputs == [TxOut(plan.amountSats, script)] && plan.amountSats > 0
            && Paid(r.value) == plan.feeSats
            && Fits(r.value.tx, r.value.stacks) && PaysRelay(r.value, rate)
  {
    var plan := PlanMaxSpend(utxos, rate, given).value;
    BuiltWithinPlan(c, utxos, given, script, plan.amountSats, changeScript, plan.feeSats, false, rate);
    SpendConserves(c, utxos, script, plan.amountSats, changeScript, plan.feeSats);
  }

  /** What a recipient script of 253 bytes or more adds to the planned weight. */
  function LongScriptWu(script: Bytes): nat {
    if |script| < 0xfd then 0 else 8
  }

  /** A spend that is planned for its own script, at any script length. */
  lemma PlannedWeight(c: Crypto, sorted: seq<Coin>, amount: int, rate: nat, script: Bytes, changeScript: Bytes)
    requires PlanFrom(sorted, 0, amount, rate, Some(script)).Some?
    requires |PlanFrom(sorted, 0, amount, rate, Some(script)).value.inputs| <= MAX_VARINT
    requires |changeScript| == 34 && 0 < |script| <= MAX_VARINT
    ensures var plan := PlanFrom(sorted, 0, amount, rate, Some(script)).value;
            var r := BuildSpend(c, plan.inputs, script, amount, changeScript, plan.feeSats);
            && r.Ok? && Fits(r.value.tx, r.value.stacks)
            && plan.feeSats == FeeOfWeight(WeightOf(plan.inputs, Some(script), true), rate)
            && r.value.changeSats == Folded(plan.changeSats)
            && Paid(r.value) == plan.feeSats + plan.changeSats - Folded(plan.changeSats)
            && plan.changeSats >= 0
            && Weight(r.value) == WeightOf(plan.inputs, Some(script), true) + LongScriptWu(script)
                                  - Saved(plan.changeSats, TotalSlack(c, plan.inputs, r.value.tx, r.value.spent))
  {
    var plan := PlanFrom(sorted, 0, amount, rate, Some(script)).value;
    PlanIsFirst(sorted, 0, amount, rate, Some(script));
    ChangeWeight(plan.inputs, Some(script));
    ExactWeight(c, plan.inputs, script, amount, changeScript, plan.feeSats);
    SpendConserves(c, plan.inputs, script, amount, changeScript, plan.feeSats);
  }

  /** What a spend leaves out of the weight it was planned at. */
  function Saved(change: int, slack: nat): nat {
    slack + if Folded(change) == 0 then P2TR_OUTPUT_WU else 0
  }

  /** The fee of the planned weight, with a folded change on top, reaches the fee of the weight itself. */
  ghost predicate FeeReaches(planned: nat, extra: nat, saved: nat, change: int, rate: nat) {
    planned + extra >= saved ==>
      MinimumReaches(planned, if Folded(change) == 0 then change else 0, planned + extra - saved, rate)
  }

  /** The relay minimum of the first weight, with something on top, is that of the second one or more. */
  ghost predicate MinimumReaches(first: nat, more: int, second: nat, rate: nat) {
    exists p: nat, q: nat :: RelayMinimum(p, first, rate) && RelayMinimum(q, second, rate) && p + more >= q
  }

  lemma MinimumReachesIff(first: nat, more: int, second: nat, rate: nat)
    ensures MinimumReaches(first, more, second, rate) <==> FeeOfWeight(first, rate) + more >= FeeOfWeight(second, rate)
  {
    OneRelayMinimum(first, rate);
    OneRelayMinimum(second, rate);
  }

  lemma PaysIff(b: Built, planned: nat, extra: nat, slack: nat, change: int, rate: nat)
    requires Fits(b.tx, b.stacks) && change >= 0 && Paid(b) == FeeOfWeight(planned, rate) + change - Folded(change)
    requires Weight(b) == planned + extra - Saved(change, slack)
    ensures PaysRelay(b, rate) <==> FeeReaches(planned, extra, Saved(change, slack), change, rate)
    ensures extra <= Saved(change, slack) ==> PaysRelay(b, rate)
  {
    EnoughPaid(Paid(b), Weight(b), planned, change, rate);
    PaysRelayIff(b, rate);
    MinimumReachesIff(planned, if Folded(change) == 0 then change else 0, Weight(b), rate);
  }

  /** At any script length a planned spend pays its way exactly when the fee of its planned weight, with the
      folded change on top, reaches the fee of that weight less what short signatures and the missing change
      output save, plus eight units from a 253-byte script on. Saving as much as that is enough. */
  lemma PaysItsWayIff(c: Crypto, sorted: seq<Coin>, amount: int, rate: nat, script: Bytes, changeScript: Bytes)
    requires PlanFrom(sorted, 0, amount, rate, Some(script)).Some?
    requires |PlanFrom(sorted, 0, amount, rate, Some(script)).value.inputs| <= MAX_VARINT
    requires |changeScript| == 34 && 0 < |script| <= MAX_VARINT
    ensures var plan := PlanFrom(sorted, 0, amount, rate, Some(script)).value;
            var r := BuildSpend(c, plan.inputs, script, amount, changeScript, plan.feeSats);
            r.Ok? && Fits(r.value.tx, r.value.stacks) &&
            var planned := WeightOf(plan.inputs, Some(script), true);
            var saved := Saved(plan.changeSats, TotalSlack(c, plan.inputs, r.value.tx, r.value.spent));
            && planned + LongScriptWu(script) >= saved
            && (PaysRelay(r.value, rate) <==>
                  FeeReaches(planned, LongScriptWu(script), saved, plan.changeSats, rate))
            && (LongScriptWu(script) <= saved ==> PaysRelay(r.value, rate))
  {
    PlannedWeight(c, sorted, amount, rate, script, changeScript);
    var plan := PlanFrom(sorted, 0, amount, rate, Some(script)).value;
    var b := BuildSpend(c, plan.inputs, script, amount, changeScript, plan.feeSats).value;
    PaysIff(b, WeightOf(plan.inputs, Some(script), true), LongScriptWu(script), TotalSlack(c, plan.inputs, b.tx, b.spent),
            plan.changeSats, rate);
  }

  lemma ChangeWeight(us: seq<Coin>, script: Option<Bytes>)
    ensures WeightOf(us, script, true) == WeightOf(us, script, false) + P2TR_OUTPUT_WU
  {
  }

  /** A fee for a planned weight, with a folded change on top, is enough for any weight up to the planned one. */
  lemma EnoughPaid(paid: int, weight: nat, planned: nat, changeSats: int, rate: nat)
    requires changeSats >= 0 && paid == FeeOfWeight(planned, rate) + changeSats - Folded(changeSats)
    ensures weight <= planned ==> paid >= FeeOfWeight(weight, rate)
    ensures paid == FeeOfWeight(planned, rate) + if Folded(changeSats) == 0 then changeSats else 0
  {
    if weight <= planned {
      FeeMono(weight, planned, rate);
    }
  }

  /** With P2TR coins alone nothing is saved on signatures, so it is known beforehand: such a spend underpays
      exactly when it keeps its change, the script has 253 bytes or more, and eight units cost something. */
  lemma LongScriptUnderpaysIff(c: Crypto, sorted: seq<Coin>, amount: int, rate: nat, script: Bytes, changeScript: Bytes)
    requires OneType(sorted, false) && PlanFrom(sorted, 0, amount, rate, Some(script)).Some?
    requires |PlanFrom(sorted, 0, amount, rate, Some(script)).value.inputs| <= MAX_VARINT
    requires |changeScript| == 34 && 0 < |script| <= MAX_VARINT
    ensures var plan := PlanFrom(sorted, 0, amount, rate, Some(script)).value;
            var r := BuildSpend(c, plan.inputs, script, amount, changeScript, plan.feeSats);
            var planned := WeightOf(plan.inputs, Some(script), true);
            && r.Ok? && Fits(r.value.tx, r.value.stacks)
            && (!PaysRelay(r.value, rate) <==>
                  plan.changeSats >= CHANGE_FOLD_SATS && |script| >= 0xfd && !MinimumReaches(planned, 0, planned + 8, rate))
  {
    PaysItsWayIff(c, sorted, amount, rate, script, changeScript);
    var plan := PlanFrom(sorted, 0, amount, rate, Some(script)).value;
    var b := BuildSpend(c, plan.inputs, script, amount, changeScript, plan.feeSats).value;
    PlannedOnP2tr(c, sorted, amount, rate, Some(script), plan, b.tx, b.spent);
    UnderpaysIff(b, WeightOf(plan.inputs, Some(script), true), LongScriptWu(script), plan.changeSats, rate);
  }

  lemma PlannedOnP2tr(c: Crypto, sorted: seq<Coin>, amount: int, rate: nat, script: Option<Bytes>, plan: Plan, tx: Tx, spent: seq<TxOut>)
    requires OneType(sorted, false) && PlanFrom(sorted, 0, amount, rate, script) == Some(plan)
    ensures plan.changeSats >= 0 && TotalSlack(c, plan.inputs, tx, spent) == 0
  {
    PlanIsFirst(sorted, 0, amount, rate, script);
    NoSlackOnP2tr(c, plan.inputs, tx, spent);
  }

  lemma UnderpaysIff(b: Built, planned: nat, extra: nat, change: int, rate: nat)
    requires Fits(b.tx, b.stacks) && change >= 0 && (extra == 0 || extra == 8)
    requires PaysRelay(b, rate) <==> FeeReaches(planned, extra, Saved(change, 0), change, rate)
    requires extra <= Saved(change, 0) ==> PaysRelay(b, rate)
    ensures !PaysRelay(b, rate) <==> change >= CHANGE_FOLD_SATS && extra == 8 && !MinimumReaches(planned, 0, planned + 8, rate)
  {
  }

  /** In particular at every rate from 500 sats/kvB. */
  lemma LongScriptUnderpays(c: Crypto, sorted: seq<Coin>, amount: int, rate: nat, script: Bytes, changeScript: Bytes)
    requires OneType(sorted, false) && PlanFrom(sorted, 0, amount, rate, Some(script)).Some?
    requires |PlanFrom(sorted, 0, amount, rate, Some(script)).value.inputs| <= MAX_VARINT
    requires PlanFrom(sorted, 0, amount, rate, Some(script)).value.changeSats >= CHANGE_FOLD_SATS
    requires |changeScript| == 34 && 0xfd <= |script| <= MAX_VARINT && rate >= 500
    ensures var plan := PlanFrom(sorted, 0, amount, rate, Some(script)).value;
            var r := BuildSpend(c, plan.inputs, script, amount, changeScript, plan.feeSats);
            && r.Ok? && Fits(r.value.tx, r.value.stacks) && !PaysRelay(r.value, rate)
  {
    LongScriptUnderpaysIff(c, sorted, amount, rate, script, changeScript);
    var planned := WeightOf(PlanFrom(sorted, 0, amount, rate, Some(script)).value.inputs, Some(script), true);
    EightMoreUnits(planned, rate);
    MinimumReachesIff(planned, 0, planned + 8, rate);
  }

  lemma EightMoreUnits(w: nat, rate: nat)
    requires rate >= 500
    ensures FeeOfWeight(w + 8, rate) > FeeOfWeight(w, rate)
  {
    var v := (w + 3) / 4;
    assert (w + 8 + 3) / 4 == v + 2;
    assert (v + 2) * rate == v * rate + 2 * rate;
  }
}
