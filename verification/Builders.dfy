/** txbuild.js and index.js: collateral, scripts, and the four transaction builders. Keys, hashes and
    signatures are opaque functions of what they are computed from. */
module Builders {
  import opened Common
  import opened Envelope
  import opened TxWire

  // ---- index.js: collateral ----

  const COIN := 100_000_000
  const MAX_MONEY := 21_000_000_000 * COIN
  const DCA_BPS_SCALE := 10_000

  datatype Tier = Tier(id: string, lockBlocks: nat, ratioPercent: nat)

  const DAY := 5760
  const LOCK_TIERS: seq<Tier> := [
    Tier("1hour", 240, 1000), Tier("30days", 30 * DAY, 500), Tier("3months", 90 * DAY, 400),
    Tier("6months", 180 * DAY, 350), Tier("1year", 365 * DAY, 300), Tier("2years", 2 * 365 * DAY, 275),
    Tier("3years", 3 * 365 * DAY, 250), Tier("5years", 5 * 365 * DAY, 225), Tier("7years", 7 * 365 * DAY, 212),
    Tier("10years", 10 * 365 * DAY, 200)]

  /** LOCK_TIERS.find, as an index; |LOCK_TIERS| when there is none. */
  function TierIndex(id: string, from: nat := 0): (i: nat)
    requires from <= |LOCK_TIERS|
    ensures from <= i <= |LOCK_TIERS|
    ensures i < |LOCK_TIERS| ==> LOCK_TIERS[i].id == id
    ensures forall k :: from <= k < i ==> LOCK_TIERS[k].id != id
    decreases |LOCK_TIERS| - from, id
  {
    if from == |LOCK_TIERS| || LOCK_TIERS[from].id == id then from else TierIndex(id, from + 1)
  }

  /** BigInt division, which truncates towards zero. */
  function TruncDiv(n: int, d: int): int
    requires d > 0
  {
    if n >= 0 then n / d else -(-n / d)
  }

  function CeilDiv(n: int, d: int): int
    requires d > 0
  {
    TruncDiv(n + d - 1, d)
  }

  function EffectiveRatioPercent(ratioPercent: int, dcaMultiplierBps: int): int {
    CeilDiv(ratioPercent * dcaMultiplierBps, DCA_BPS_SCALE)
  }

  function BaseSats(ddCents: int, ratio: int, price: int): int
    requires price > 0
  {
    CeilDiv(ddCents * COIN * ratio * 100, price)
  }

  function RequiredCollateralSats(ddCents: int, tierId: string, price: int, dcaMultiplierBps: int): Result<int> {
    var i := TierIndex(tierId);
    if i == |LOCK_TIERS| then Err("unknown lock tier")
    else if ddCents <= 0 then Err("DigiDollar amount must be positive")
    else if price <= 0 then Err("oracle price must be positive")
    else
      var base := BaseSats(ddCents, EffectiveRatioPercent(LOCK_TIERS[i].ratioPercent, dcaMultiplierBps), price);
      if base > MAX_MONEY then Err("required collateral exceeds MAX_MONEY")
      else
        var withMargin := TruncDiv(base * 101, 100);
        if withMargin > MAX_MONEY then Err("required collateral exceeds MAX_MONEY") else Ok(withMargin)
  }

  lemma CeilDivLeast(n: int, d: int)
    requires n >= 0 && d > 0
    ensures (CeilDiv(n, d) - 1) * d < n <= CeilDiv(n, d) * d
  {
    var q := (n + d - 1) / d;
    assert n + d - 1 == q * d + (n + d - 1) % d;
    assert (q - 1) * d == q * d - d;
  }

  // ---- scripts and keys ----

  type Key = int
  type Hash20 = s: Bytes | |s| == 20 witness seq(20, i => 0)
  type Sig64 = s: Bytes | |s| == 64 witness seq(64, i => 0)
  type PubKey33 = s: Bytes | |s| == 33 witness seq(33, i => 0)
  /** A low-S DER signature with its sighash byte. */
  type DerSig = s: Bytes | |s| <= 72 witness []

  /** What a signature is made over: the whole transaction, what it spends, and which input signs. */
  datatype SigHash = SigHash(tx: Tx, spent: seq<TxOut>, index: nat, leaf: bool)

  datatype Crypto = Crypto(
    xOnly: Key -> Key32,
    tweak: Key32 -> Key32,
    collateralKey: (Key32, int, int) -> Key32,
    leafScript: (Key32, int, int) -> Bytes,
    controlBlock: (Key32, int, int) -> Bytes,
    hash160: Key -> Hash20,
    pubKey: Key -> PubKey33,
    schnorr: (Key, bool, SigHash) -> Sig64,
    ecdsa: (Key, SigHash) -> DerSig)

  function P2tr(k: Key32): (s: Bytes)
    ensures |s| == 34 && s[0] == 0x51
  {
    [0x51, 0x20] + k
  }

  function P2wpkh(h: Hash20): (s: Bytes)
    ensures |s| == 22 && s[0] == 0x00
  {
    [0x00, 0x14] + h
  }

  /** A plain DGB coin with its own key; v0 marks a P2WPKH coin. */
  datatype Coin = Coin(txid: Hash32, vout: int, valueSats: nat, key: Key, v0: bool)

  datatype DDCoin = DDCoin(txid: Hash32, vout: int, ddCents: int)

  datatype Collateral = Collateral(txid: Hash32, vout: int, valueSats: nat, lockHeight: int, ddCents: int)

  datatype Recipient = Recipient(outputKey: Key32, cents: int)

  /** A signed transaction, with the outputs it spends as the builder took them to be. */
  datatype Built = Built(tx: Tx, stacks: seq<Stack>, spent: seq<TxOut>, ddChangeCents: int, changeSats: int)

  /** dgbLegScriptHex: also the prevout script of a plain spend's input. */
  function DgbScript(c: Crypto, u: Coin): Bytes {
    if u.v0 then P2wpkh(c.hash160(u.key)) else P2tr(c.tweak(c.xOnly(u.key)))
  }

  function DgbLeg(c: Crypto, u: Coin): TxOut {
    TxOut(u.valueSats, DgbScript(c, u))
  }

  /** signDgbLeg */
  function SignDgbLeg(c: Crypto, u: Coin, h: SigHash): Stack {
    if u.v0 then [c.ecdsa(u.key, h), c.pubKey(u.key)] else [c.schnorr(u.key, true, h)]
  }

  // ---- values ----

  function ValueOf(o: TxOut): int {
    o.valueSats
  }

  function TotalOut(outs: seq<TxOut>): int {
    Sum(outs, ValueOf)
  }

  function CoinValue(u: Coin): int {
    u.valueSats
  }

  function CentsOf(d: DDCoin): int {
    d.ddCents
  }

  function RecipientCents(r: Recipient): int {
    r.cents
  }

  /** What the miners get. */
  function Paid(b: Built): int {
    TotalOut(b.spent) - TotalOut(b.tx.outputs)
  }

  const CHANGE_FOLD_SATS := 100_000
  const MIN_DD_TX_FEE_SATS := 10_000_000
  const MIN_DD_OUTPUT_CENTS := 100
  const LOCK_BUFFER := 100

  function Folded(change: int): int {
    if change < CHANGE_FOLD_SATS then 0 else change
  }

  function ChangeOut(sats: int, script: Bytes): seq<TxOut> {
    if sats > 0 then [TxOut(sats, script)] else []
  }

  // ---- plain spend ----

  function SpendInputs(utxos: seq<Coin>): (r: seq<TxIn>)
    ensures |r| == |utxos|
  {
    seq(|utxos|, i requires 0 <= i < |utxos| => TxIn(utxos[i].txid, utxos[i].vout, 0xffff_fffd))
  }

  function SpendLegs(c: Crypto, utxos: seq<Coin>): (r: seq<TxOut>)
    ensures |r| == |utxos|
  {
    seq(|utxos|, i requires 0 <= i < |utxos| => DgbLeg(c, utxos[i]))
  }

  function SpendStacks(c: Crypto, utxos: seq<Coin>, tx: Tx, spent: seq<TxOut>): (r: seq<Stack>)
    ensures |r| == |utxos|
  {
    seq(|utxos|, i requires 0 <= i < |utxos| => SignDgbLeg(c, utxos[i], SigHash(tx, spent, i, false)))
  }

  function BuildSpend(c: Crypto, utxos: seq<Coin>, recipient: Bytes, amountSats: int, changeScript: Bytes, feeSats: int)
    : Result<Built>
  {
    var change := Sum(utxos, CoinValue) - amountSats - feeSats;
    if change < 0 then Err("inputs do not cover amount + fee")
    else
      var outputs := [TxOut(amountSats, recipient)] + ChangeOut(Folded(change), changeScript);
      var tx := Tx(2, 0, SpendInputs(utxos), outputs);
      var spent := SpendLegs(c, utxos);
      Ok(Built(tx, SpendStacks(c, utxos, tx, spent), spent, 0, Folded(change)))
  }

  // ---- mint ----

  datatype MintOrder = MintOrder(ddCents: int, tierId: string, price: int, dcaMultiplierBps: int, tipHeight: int)

  function UnlockHeight(m: MintOrder): int
    requires TierIndex(m.tierId) < |LOCK_TIERS|
  {
    m.tipHeight + 1 + LOCK_BUFFER + LOCK_TIERS[TierIndex(m.tierId)].lockBlocks
  }

  function MintOutputs(c: Crypto, owner: Key32, meta: MintMeta, collateral: int): seq<TxOut> {
    [TxOut(collateral, P2tr(c.collateralKey(owner, meta.unlockHeight, meta.ddCents))),
     TxOut(0, P2tr(c.tweak(owner))),
     TxOut(0, MintScript(meta))]
  }

  function BuildMint(c: Crypto, utxo: Coin, m: MintOrder, feeSats: int): Result<Built> {
    var i := TierIndex(m.tierId);
    if i == |LOCK_TIERS| then Err("unknown lock tier")
    else if feeSats < MIN_DD_TX_FEE_SATS then Err("fee below the DigiDollar fee floor (0.1 DGB)")
    else
      var collateral := RequiredCollateralSats(m.ddCents, m.tierId, m.price, m.dcaMultiplierBps);
      if collateral.Err? then Err(collateral.message)
      else
        var change := utxo.valueSats - collateral.value - feeSats;
        if change < 0 then Err("funding UTXO too small for collateral + fee")
        else if UnlockHeight(m) < 0 then Err("negative value")
        else
          var owner := c.xOnly(utxo.key);
          var meta := MintMeta(m.ddCents, UnlockHeight(m), i, owner);
          var outputs := MintOutputs(c, owner, meta, collateral.value)
                       + ChangeOut(Folded(change), P2wpkh(c.hash160(utxo.key)));
          var tx := Tx(BuildDDVersion(Mint), 0, [TxIn(utxo.txid, utxo.vout, 0xffff_fffd)], outputs);
          var spent := [DgbLeg(c, utxo)];
          Ok(Built(tx, [SignDgbLeg(c, utxo, SigHash(tx, spent, 0, false))], spent, 0, Folded(change)))
  }

  // ---- transfer ----

  function RecipientOuts(rs: seq<Recipient>): (r: seq<TxOut>)
    ensures |r| == |rs|
  {
    seq(|rs|, i requires 0 <= i < |rs| => TxOut(0, P2tr(rs[i].outputKey)))
  }

  function RecipientAmounts(rs: seq<Recipient>): (r: seq<int>)
    ensures |r| == |rs|
  {
    seq(|rs|, i requires 0 <= i < |rs| => rs[i].cents)
  }

  predicate AllAtLeastMinimum(amounts: seq<int>) {
    forall i :: 0 <= i < |amounts| ==> amounts[i] >= MIN_DD_OUTPUT_CENTS
  }

  /** buildTransferOutputs, pushing outputs and amounts side by side. */
  method MakeTransferOutputs(rs: seq<Recipient>, ddChangeCents: int, changeKey: Key32, dgbChange: int, dgbScript: Bytes)
    returns (r: Result<seq<TxOut>>)
    ensures r == TransferOutputs(rs, ddChangeCents, changeKey, dgbChange, dgbScript)
  {
    if |rs| == 0 {
      return Err("at least one recipient required");
    }
    var amounts := RecipientAmounts(rs);
    var outputs := RecipientOuts(rs);
    if ddChangeCents > 0 {
      outputs := outputs + [TxOut(0, P2tr(changeKey))];
      amounts := amounts + [ddChangeCents];
    }
    assert amounts == TransferAmounts(rs, ddChangeCents);
    for i := 0 to |amounts|
      invariant AllAtLeastMinimum(amounts[..i])
    {
      if amounts[i] < MIN_DD_OUTPUT_CENTS {
        return Err("consensus forbids DigiDollar outputs below $1.00");
      }
    }
    assert amounts[..|amounts|] == amounts;
    if dgbChange > 0 {
      outputs := outputs + [TxOut(dgbChange, dgbScript)];
    }
    var meta := BuildTransferMetadata(amounts);
    r := Ok(outputs + [TxOut(0, meta.value)]);
    assert outputs == TransferTokens(rs, ddChangeCents, changeKey) + ChangeOut(dgbChange, dgbScript);
  }

  function TransferAmounts(rs: seq<Recipient>, ddChangeCents: int): seq<int> {
    RecipientAmounts(rs) + (if ddChangeCents > 0 then [ddChangeCents] else [])
  }

  function TransferTokens(rs: seq<Recipient>, ddChangeCents: int, changeKey: Key32): seq<TxOut> {
    RecipientOuts(rs) + (if ddChangeCents > 0 then [TxOut(0, P2tr(changeKey))] else [])
  }

  function TransferOutputs(rs: seq<Recipient>, ddChangeCents: int, changeKey: Key32, dgbChange: int, dgbScript: Bytes)
    : Result<seq<TxOut>>
  {
    if |rs| == 0 then Err("at least one recipient required")
    else if !AllAtLeastMinimum(TransferAmounts(rs, ddChangeCents)) then
      Err("consensus forbids DigiDollar outputs below $1.00")
    else
      Ok(TransferTokens(rs, ddChangeCents, changeKey) + ChangeOut(dgbChange, dgbScript)
         + [TxOut(0, TransferScript(TransferAmounts(rs, ddChangeCents)))])
  }

  function BuildTransfer(c: Crypto, dd: DDCoin, fee: Coin, key: Key, rs: seq<Recipient>, feeSats: int,
                         dgbChangeScript: Option<Bytes>): Result<Built>
  {
    var ddChange := dd.ddCents - Sum(rs, RecipientCents);
    var change := fee.valueSats - feeSats;
    if feeSats < MIN_DD_TX_FEE_SATS then Err("fee below the DigiDollar fee floor (0.1 DGB)")
    else if ddChange < 0 then Err("DD input smaller than the amount being sent")
    else if change < 0 then Err("fee UTXO too small for the fee")
    else
      var owner := c.tweak(c.xOnly(key));
      var outputs := TransferOutputs(rs, ddChange, owner, Folded(change), ChangeScript(c, key, dgbChangeScript));
      if outputs.Err? then Err(outputs.message)
      else
        var tx := Tx(BuildDDVersion(Transfer), 0,
                     [TxIn(dd.txid, dd.vout, 0xffff_ffff), TxIn(fee.txid, fee.vout, 0xffff_ffff)], outputs.value);
        var spent := [TxOut(0, P2tr(owner)), DgbLeg(c, fee)];
        Ok(Built(tx, [[c.schnorr(key, true, SigHash(tx, spent, 0, false))],
                      SignDgbLeg(c, fee, SigHash(tx, spent, 1, false))], spent, ddChange, Folded(change)))
  }

  /** DGB change goes where the caller says, else to the owner's P2WPKH. */
  function ChangeScript(c: Crypto, key: Key, given: Option<Bytes>): Bytes {
    if given.Some? then given.value else P2wpkh(c.hash160(key))
  }

  // ---- redeem ----

  function RedeemOutputs(c: Crypto, owner: Key32, returnSats: int, ddChange: int, dgbChange: int, dgbScript: Bytes)
    : seq<TxOut>
  {
    [TxOut(returnSats, P2tr(c.tweak(owner)))]
    + (if ddChange > 0 then [TxOut(0, P2tr(c.tweak(owner))), TxOut(0, RedeemScript(ddChange))] else [])
    + ChangeOut(dgbChange, dgbScript)
  }

  function BurnInputs(dds: seq<DDCoin>): (r: seq<TxIn>)
    ensures |r| == |dds|
  {
    seq(|dds|, i requires 0 <= i < |dds| => TxIn(dds[i].txid, dds[i].vout, 0xffff_fffe))
  }

  function BurnLegs(owner: Bytes, n: nat): (r: seq<TxOut>)
    ensures |r| == n
  {
    seq(n, i => TxOut(0, owner))
  }

  function BuildRedeem(c: Crypto, col: Collateral, dds: seq<DDCoin>, fee: Coin, key: Key, feeSats: int,
                       dgbChangeScript: Option<Bytes>): Result<Built>
  {
    var ddChange := Sum(dds, CentsOf) - col.ddCents;
    var change := fee.valueSats - feeSats;
    if feeSats < MIN_DD_TX_FEE_SATS then Err("fee below the DigiDollar fee floor (0.1 DGB)")
    else if ddChange < 0 then Err("DD inputs must cover the full minted amount (full redemption only)")
    else if change < 0 then Err("fee UTXO too small for the fee")
    else
      var owner := c.xOnly(key);
      var outputs := RedeemOutputs(c, owner, col.valueSats, ddChange, Folded(change), ChangeScript(c, key, dgbChangeScript));
      var inputs := [TxIn(col.txid, col.vout, 0xffff_fffe)] + BurnInputs(dds) + [TxIn(fee.txid, fee.vout, 0xffff_ffff)];
      var tx := Tx(BuildDDVersion(Redeem), col.lockHeight, inputs, outputs);
      var spent := [TxOut(col.valueSats, P2tr(c.collateralKey(owner, col.lockHeight, col.ddCents)))]
                 + BurnLegs(P2tr(c.tweak(owner)), |dds|) + [DgbLeg(c, fee)];
      Ok(Built(tx, RedeemStacks(c, owner, key, col, |dds|, fee, tx, spent), spent, ddChange, Folded(change)))
  }

  function RedeemStacks(c: Crypto, owner: Key32, key: Key, col: Collateral, burns: nat, fee: Coin, tx: Tx, spent: seq<TxOut>)
    : (r: seq<Stack>)
    ensures |r| == burns + 2
  {
    [[c.schnorr(key, false, SigHash(tx, spent, 0, true)),
      c.leafScript(owner, col.lockHeight, col.ddCents), c.controlBlock(owner, col.lockHeight, col.ddCents)]]
    + seq(burns, i requires 0 <= i < burns => [c.schnorr(key, true, SigHash(tx, spent, i + 1, false))])
    + [SignDgbLeg(c, fee, SigHash(tx, spent, burns + 1, false))]
  }

  // ---- conservation ----

  /** The paid fee is the asked one plus at most the folded dust, and no change is dust. */
  predicate PaysFee(b: Built, feeSats: int) {
    && feeSats <= Paid(b) < feeSats + CHANGE_FOLD_SATS
    && (b.changeSats == 0 || b.changeSats >= CHANGE_FOLD_SATS)
    && (b.changeSats > 0 ==> exists i :: 0 <= i < |b.tx.outputs| && b.tx.outputs[i].valueSats == b.changeSats)
  }

  lemma TotalOne(o: TxOut)
    ensures TotalOut([o]) == o.valueSats
  {
    assert [o][..0] == [];
    assert Sum([o], ValueOf) == Sum([o][..0], ValueOf) + ValueOf([o][0]);
  }

  lemma TotalConcat(a: seq<TxOut>, b: seq<TxOut>)
    ensures TotalOut(a + b) == TotalOut(a) + TotalOut(b)
  {
    SumConcat(a, b, ValueOf);
  }

  lemma TotalChange(sats: int, script: Bytes)
    requires sats >= 0
    ensures TotalOut(ChangeOut(sats, script)) == sats
  {
    TotalOne(TxOut(sats, script));
  }

  lemma {:induction false} TotalOfZeros(outs: seq<TxOut>)
    requires forall i :: 0 <= i < |outs| ==> outs[i].valueSats == 0
    ensures TotalOut(outs) == 0
  {
    if outs != [] {
      TotalOfZeros(outs[..|outs| - 1]);
    }
  }

  lemma {:induction false} LegsTotal(c: Crypto, utxos: seq<Coin>)
    ensures TotalOut(SpendLegs(c, utxos)) == Sum(utxos, CoinValue)
  {
    if utxos != [] {
      var n := |utxos| - 1;
      LegsTotal(c, utxos[..n]);
      assert SpendLegs(c, utxos)[..n] == SpendLegs(c, utxos[..n]);
    }
  }

  lemma SpendConserves(c: Crypto, utxos: seq<Coin>, recipient: Bytes, amountSats: int, changeScript: Bytes, feeSats: int)
    ensures var r := BuildSpend(c, utxos, recipient, amountSats, changeScript, feeSats);
            && (r.Ok? <==> Sum(utxos, CoinValue) >= amountSats + feeSats)
            && (r.Ok? ==>
                  && r.value.tx.outputs[0] == TxOut(amountSats, recipient)
                  && TotalOut(r.value.spent) == Sum(utxos, CoinValue)
                  && Sum(utxos, CoinValue) == amountSats + r.value.changeSats + Paid(r.value)
                  && PaysFee(r.value, feeSats))
  {
    var r := BuildSpend(c, utxos, recipient, amountSats, changeScript, feeSats);
    if r.Ok? {
      var change := ChangeOut(r.value.changeSats, changeScript);
      LegsTotal(c, utxos);
      TotalConcat([TxOut(amountSats, recipient)], change);
      TotalOne(TxOut(amountSats, recipient));
      TotalChange(r.value.changeSats, changeScript);
      if r.value.changeSats > 0 {
        assert r.value.tx.outputs[1].valueSats == r.value.changeSats;
      }
    }
  }

  lemma MintConserves(c: Crypto, utxo: Coin, m: MintOrder, feeSats: int)
    requires BuildMint(c, utxo, m, feeSats).Ok?
    ensures var b := BuildMint(c, utxo, m, feeSats).value;
            var collateral := RequiredCollateralSats(m.ddCents, m.tierId, m.price, m.dcaMultiplierBps);
            && collateral.Ok? && b.tx.outputs[0].valueSats == collateral.value
            && utxo.valueSats == collateral.value + b.changeSats + Paid(b)
            && PaysFee(b, feeSats)
  {
    var b := BuildMint(c, utxo, m, feeSats).value;
    var collateral := RequiredCollateralSats(m.ddCents, m.tierId, m.price, m.dcaMultiplierBps).value;
    var owner := c.xOnly(utxo.key);
    var outs := MintOutputs(c, owner, MintMeta(m.ddCents, UnlockHeight(m), TierIndex(m.tierId), owner), collateral);
    var script := P2wpkh(c.hash160(utxo.key));
    assert b.tx.outputs == outs + ChangeOut(b.changeSats, script);
    TotalConcat(outs, ChangeOut(b.changeSats, script));
    TotalChange(b.changeSats, script);
    assert outs == [outs[0]] + [outs[1], outs[2]];
    TotalConcat([outs[0]], [outs[1], outs[2]]);
    TotalOne(outs[0]);
    TotalOfZeros([outs[1], outs[2]]);
    TotalOne(DgbLeg(c, utxo));
    if b.changeSats > 0 {
      assert b.tx.outputs[3].valueSats == b.changeSats;
    }
  }

  lemma TransferValues(tokens: seq<TxOut>, change: int, script: Bytes, meta: Bytes, legs: seq<TxOut>, fee: TxOut)
    requires change >= 0 && forall i :: 0 <= i < |tokens| ==> tokens[i].valueSats == 0
    requires forall i :: 0 <= i < |legs| ==> legs[i].valueSats == 0
    ensures TotalOut(tokens + ChangeOut(change, script) + [TxOut(0, meta)]) == change
    ensures TotalOut(legs + [fee]) == fee.valueSats
    ensures change > 0 ==> (tokens + ChangeOut(change, script) + [TxOut(0, meta)])[|tokens|].valueSats == change
  {
    TotalConcat(tokens + ChangeOut(change, script), [TxOut(0, meta)]);
    TotalConcat(tokens, ChangeOut(change, script));
    TotalOfZeros(tokens);
    TotalChange(change, script);
    TotalOne(TxOut(0, meta));
    TotalConcat(legs, [fee]);
    TotalOfZeros(legs);
    TotalOne(fee);
  }

  /** The whole DigiDollar input is paid out, in outputs of a dollar or more. */
  lemma TransferConserves(c: Crypto, dd: DDCoin, fee: Coin, key: Key, rs: seq<Recipient>, feeSats: int, script: Option<Bytes>)
    requires BuildTransfer(c, dd, fee, key, rs, feeSats, script).Ok?
    ensures var b := BuildTransfer(c, dd, fee, key, rs, feeSats, script).value;
            var amounts := TransferAmounts(rs, b.ddChangeCents);
            && fee.valueSats == b.changeSats + Paid(b) && PaysFee(b, feeSats)
            && SumOf(amounts) == dd.ddCents && AllAtLeastMinimum(amounts)
            && (forall i :: 0 <= i < |rs| ==> amounts[i] == rs[i].cents)
  {
    var b := BuildTransfer(c, dd, fee, key, rs, feeSats, script).value;
    var owner := c.tweak(c.xOnly(key));
    var tokens := TransferTokens(rs, b.ddChangeCents, owner);
    TransferValues(tokens, b.changeSats, ChangeScript(c, key, script),
                   TransferScript(TransferAmounts(rs, b.ddChangeCents)), [TxOut(0, P2tr(owner))], DgbLeg(c, fee));
    assert b.spent == [TxOut(0, P2tr(owner))] + [DgbLeg(c, fee)];
    AmountsSum(rs, b.ddChangeCents);
  }

  function Same(x: int): int {
    x
  }

  function SumOf(xs: seq<int>): int {
    Sum(xs, Same)
  }

  lemma {:induction false} RecipientsSum(rs: seq<Recipient>)
    ensures SumOf(RecipientAmounts(rs)) == Sum(rs, RecipientCents)
  {
    if rs != [] {
      var n := |rs| - 1;
      RecipientsSum(rs[..n]);
      assert RecipientAmounts(rs)[..n] == RecipientAmounts(rs[..n]);
    }
  }

  lemma AmountsSum(rs: seq<Recipient>, change: int)
    requires change >= 0
    ensures SumOf(TransferAmounts(rs, change)) == Sum(rs, RecipientCents) + change
  {
    RecipientsSum(rs);
    if change > 0 {
      SumConcat(RecipientAmounts(rs), [change], Same);
      assert [change][..0] == [];
    } else {
      assert TransferAmounts(rs, change) == RecipientAmounts(rs);
    }
  }

  /** The collateral comes back whole, and the burn is exactly the position's cents. */
  lemma RedeemConserves(c: Crypto, col: Collateral, dds: seq<DDCoin>, fee: Coin, key: Key, feeSats: int, script: Option<Bytes>)
    requires BuildRedeem(c, col, dds, fee, key, feeSats, script).Ok?
    ensures var b := BuildRedeem(c, col, dds, fee, key, feeSats, script).value;
            && b.tx.outputs[0].valueSats == col.valueSats
            && fee.valueSats == b.changeSats + Paid(b) && PaysFee(b, feeSats)
            && b.ddChangeCents >= 0 && Sum(dds, CentsOf) - b.ddChangeCents == col.ddCents
  {
    var b := BuildRedeem(c, col, dds, fee, key, feeSats, script).value;
    var owner := c.xOnly(key);
    var first, last := TxOut(col.valueSats, P2tr(c.tweak(owner))), ChangeOut(b.changeSats, ChangeScript(c, key, script));
    var dd := if b.ddChangeCents > 0 then [TxOut(0, P2tr(c.tweak(owner))), TxOut(0, RedeemScript(b.ddChangeCents))] else [];
    assert b.tx.outputs == [first] + dd + last;
    TotalConcat([first] + dd, last);
    TotalConcat([first], dd);
    TotalOne(first);
    TotalOfZeros(dd);
    TotalChange(b.changeSats, ChangeScript(c, key, script));
    SpentByRedeem(c, col, |dds|, fee, owner);
    if b.changeSats > 0 {
      assert b.tx.outputs[|[first] + dd|].valueSats == b.changeSats;
    }
  }

  lemma SpentByRedeem(c: Crypto, col: Collateral, burns: nat, fee: Coin, owner: Key32)
    ensures TotalOut([TxOut(col.valueSats, P2tr(c.collateralKey(owner, col.lockHeight, col.ddCents)))]
                     + BurnLegs(P2tr(c.tweak(owner)), burns) + [DgbLeg(c, fee)])
         == col.valueSats + fee.valueSats
  {
    var first := TxOut(col.valueSats, P2tr(c.collateralKey(owner, col.lockHeight, col.ddCents)));
    var legs := BurnLegs(P2tr(c.tweak(owner)), burns);
    TotalConcat([first] + legs, [DgbLeg(c, fee)]);
    TotalConcat([first], legs);
    TotalOne(first);
    TotalOfZeros(legs);
    TotalOne(DgbLeg(c, fee));
  }
}
