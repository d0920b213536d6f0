/** Who gets what, and who signs what: the outputs, inputs and witnesses of the four builders, position by
    position, and the DigiDollar and the DGB that end up under each script. */
module Custody {
  import opened Common
  import opened Envelope
  import opened TxWire
  import opened Builders
  import opened Indexer

  // ---- whose key a script is ----

  /** Key-path P2TR of a key's tweaked public key: OP_1 and 32 bytes. */
  function TokenScript(c: Crypto, key: Key): Bytes {
    [0x51, 0x20] + c.tweak(c.xOnly(key))
  }

  /** P2WPKH of a key: OP_0 and 20 bytes. */
  function WitnessScript(c: Crypto, key: Key): Bytes {
    [0x00, 0x14] + c.hash160(key)
  }

  /** P2TR of the collateral key that commits to the owner, the lock and the amount. */
  function VaultScript(c: Crypto, key: Key, lockHeight: int, cents: int): Bytes {
    [0x51, 0x20] + c.collateralKey(c.xOnly(key), lockHeight, cents)
  }

  // ---- what a signature must be ----

  predicate SamePlaces(b: Built, n: nat) {
    |b.tx.inputs| == n && |b.spent| == n && |b.stacks| == n
  }

  predicate Outpoint(i: TxIn, txid: Hash32, vout: int, sequence: int) {
    i.txid == txid && i.vout == vout && i.sequence == sequence
  }

  /** Input i spends a DGB coin on the coin's own script, and carries that key's signature over this very input:
      ECDSA and the public key on P2WPKH, the tweaked key's Schnorr signature on P2TR. */
  predicate SignedCoin(c: Crypto, b: Built, i: nat, u: Coin)
    requires SamePlaces(b, |b.stacks|) && i < |b.stacks|
  {
    var h := SigHash(b.tx, b.spent, i, false);
    if u.v0 then
      && b.spent[i] == TxOut(u.valueSats, WitnessScript(c, u.key))
      && b.stacks[i] == [c.ecdsa(u.key, h), c.pubKey(u.key)]
    else
      && b.spent[i] == TxOut(u.valueSats, TokenScript(c, u.key))
      && b.stacks[i] == [c.schnorr(u.key, true, h)]
  }

  /** Input i spends a DigiDollar output of the key, which is worth no DGB. */
  predicate SignedToken(c: Crypto, b: Built, i: nat, key: Key)
    requires SamePlaces(b, |b.stacks|) && i < |b.stacks|
  {
    && b.spent[i] == TxOut(0, TokenScript(c, key))
    && b.stacks[i] == [c.schnorr(key, true, SigHash(b.tx, b.spent, i, false))]
  }

  /** Input i opens a collateral by its script leaf: the untweaked key's signature over the leaf, the leaf and its
      control block; and the lock holds, as BIP-65 has it. */
  predicate SignedCollateral(c: Crypto, b: Built, i: nat, col: Collateral, key: Key)
    requires SamePlaces(b, |b.stacks|) && i < |b.stacks|
  {
    && b.spent[i] == TxOut(col.valueSats, VaultScript(c, key, col.lockHeight, col.ddCents))
    && b.stacks[i] == [c.schnorr(key, false, SigHash(b.tx, b.spent, i, true)),
                       c.leafScript(c.xOnly(key), col.lockHeight, col.ddCents),
                       c.controlBlock(c.xOnly(key), col.lockHeight, col.ddCents)]
    && b.tx.locktime == col.lockHeight && b.tx.inputs[i].sequence < 0xffff_ffff
  }

  /** DGB change of 0.001 DGB or more is an output; less goes to the miners. */
  function Change(left: int, script: Bytes): seq<TxOut> {
    if left >= 100_000 then [TxOut(left, script)] else []
  }

  // ---- plain spend ----

  /** A spend pays its recipient and sends the rest back. */
  lemma SpendPays(c: Crypto, utxos: seq<Coin>, recipient: Bytes, amountSats: int, changeScript: Bytes, feeSats: int)
    ensures var r := BuildSpend(c, utxos, recipient, amountSats, changeScript, feeSats);
            var left := Sum(utxos, CoinValue) - amountSats - feeSats;
            && (r.Ok? <==> left >= 0)
            && (r.Ok? ==> r.value.tx.outputs == [TxOut(amountSats, recipient)] + Change(left, changeScript))
  {
  }

  /** It spends exactly its coins, each under its own key. */
  lemma SpendSigns(c: Crypto, utxos: seq<Coin>, recipient: Bytes, amountSats: int, changeScript: Bytes, feeSats: int)
    requires BuildSpend(c, utxos, recipient, amountSats, changeScript, feeSats).Ok?
    ensures var b := BuildSpend(c, utxos, recipient, amountSats, changeScript, feeSats).value;
            && b.tx.version == 2 && b.tx.locktime == 0 && SamePlaces(b, |utxos|)
            && forall i :: 0 <= i < |utxos| ==>
                 Outpoint(b.tx.inputs[i], utxos[i].txid, utxos[i].vout, 0xffff_fffd) && SignedCoin(c, b, i, utxos[i])
  {
    var b := BuildSpend(c, utxos, recipient, amountSats, changeScript, feeSats).value;
    forall i | 0 <= i < |utxos| ensures SignedCoin(c, b, i, utxos[i]) {
      assert b.spent[i] == DgbLeg(c, utxos[i]);
      LegIsSigned(c, b, i, utxos[i]);
    }
  }

  lemma LegIsSigned(c: Crypto, b: Built, i: nat, u: Coin)
    requires SamePlaces(b, |b.stacks|) && i < |b.stacks|
    requires b.spent[i] == DgbLeg(c, u) && b.stacks[i] == SignDgbLeg(c, u, SigHash(b.tx, b.spent, i, false))
    ensures SignedCoin(c, b, i, u)
  {
  }

  // ---- mint ----

  /** A mint is refused exactly without a quote, under the fee floor, without the funds, or with a lock that
      ends before the first block. */
  lemma MintIsBuiltIff(c: Crypto, utxo: Coin, m: MintOrder, feeSats: int)
    ensures var quote := RequiredCollateralSats(m.ddCents, m.tierId, m.price, m.dcaMultiplierBps);
            BuildMint(c, utxo, m, feeSats).Ok? <==>
            && feeSats >= 10_000_000 && quote.Ok? && utxo.valueSats >= quote.value + feeSats
            && TierIndex(m.tierId) < |LOCK_TIERS| && m.tipHeight + 101 + LOCK_TIERS[TierIndex(m.tierId)].lockBlocks >= 0
  {
  }

  /** It locks the quoted collateral on the owner's collateral key, for the tier's blocks and a hundred and one from
      the tip on; it gives the DigiDollar to the owner, and the change to the P2WPKH of the same key. */
  lemma MintPays(c: Crypto, utxo: Coin, m: MintOrder, feeSats: int)
    requires BuildMint(c, utxo, m, feeSats).Ok?
    ensures var tx, i := BuildMint(c, utxo, m, feeSats).value.tx, TierIndex(m.tierId);
            var quote := RequiredCollateralSats(m.ddCents, m.tierId, m.price, m.dcaMultiplierBps);
            && quote.Ok? && i < |LOCK_TIERS| && m.ddCents > 0 &&
            var unlock := m.tipHeight + 101 + LOCK_TIERS[i].lockBlocks;
            && unlock >= 0
            && tx.outputs ==
                 [TxOut(quote.value, VaultScript(c, utxo.key, unlock, m.ddCents)), TxOut(0, TokenScript(c, utxo.key)),
                  TxOut(0, MintScript(MintMeta(m.ddCents, unlock, i, c.xOnly(utxo.key))))]
                 + Change(utxo.valueSats - quote.value - feeSats, WitnessScript(c, utxo.key))
  {
  }

  lemma MintSigns(c: Crypto, utxo: Coin, m: MintOrder, feeSats: int)
    requires BuildMint(c, utxo, m, feeSats).Ok?
    ensures var b := BuildMint(c, utxo, m, feeSats).value;
            && b.tx.version == 0x0100_0770 && b.tx.locktime == 0 && SamePlaces(b, 1)
            && Outpoint(b.tx.inputs[0], utxo.txid, utxo.vout, 0xffff_fffd) && SignedCoin(c, b, 0, utxo)
  {
    var b := BuildMint(c, utxo, m, feeSats).value;
    LegIsSigned(c, b, 0, utxo);
  }

  // ---- transfer ----

  /** A dollar or more for every recipient, and for the change if there is any. */
  predicate LegalAmounts(rs: seq<Recipient>, left: int) {
    rs != [] && left >= 0 && (left > 0 ==> left >= 100) && forall i :: 0 <= i < |rs| ==> rs[i].cents >= 100
  }

  lemma LegalIff(rs: seq<Recipient>, left: int)
    requires left >= 0 && rs != []
    ensures LegalAmounts(rs, left) <==> AllAtLeastMinimum(TransferAmounts(rs, left))
  {
    var amounts := TransferAmounts(rs, left);
    if AllAtLeastMinimum(amounts) {
      forall i | 0 <= i < |rs| ensures rs[i].cents >= 100 {
        assert amounts[i] == rs[i].cents;
      }
      if left > 0 {
        assert amounts[|rs|] == left;
      }
    }
  }

  /** Where the DGB change of a transfer or a redeem goes when the caller does not say. */
  function ChangeTo(c: Crypto, key: Key, given: Option<Bytes>): Bytes {
    match given
    case Some(script) => script
    case None => WitnessScript(c, key)
  }

  /** A transfer is refused exactly under the fee floor, without the funds, or when an output would be under a dollar. */
  lemma TransferIsBuiltIff(c: Crypto, dd: DDCoin, fee: Coin, key: Key, rs: seq<Recipient>, feeSats: int, script: Option<Bytes>)
    ensures BuildTransfer(c, dd, fee, key, rs, feeSats, script).Ok? <==>
            feeSats >= 10_000_000 && fee.valueSats >= feeSats && LegalAmounts(rs, dd.ddCents - Sum(rs, RecipientCents))
  {
    var left := dd.ddCents - Sum(rs, RecipientCents);
    if left >= 0 && rs != [] {
      LegalIff(rs, left);
    }
  }

  /** Output i is recipient i's, the next one holds the DigiDollar left over, then come the DGB change and the amounts. */
  predicate PaidOut(outs: seq<TxOut>, rs: seq<Recipient>, left: int, owner: Bytes, change: seq<TxOut>, amounts: TxOut) {
    var n := |rs| + if left > 0 then 1 else 0;
    && |outs| >= n && outs[n..] == change + [amounts]
    && (forall i :: 0 <= i < |rs| ==> outs[i] == TxOut(0, [0x51, 0x20] + rs[i].outputKey))
    && (left > 0 ==> outs[|rs|] == TxOut(0, owner))
  }

  /** It sends each recipient's DigiDollar to that recipient's key and the rest back to the sender's. */
  lemma TransferPays(c: Crypto, dd: DDCoin, fee: Coin, key: Key, rs: seq<Recipient>, feeSats: int, script: Option<Bytes>)
    requires BuildTransfer(c, dd, fee, key, rs, feeSats, script).Ok?
    ensures var b, left := BuildTransfer(c, dd, fee, key, rs, feeSats, script).value, dd.ddCents - Sum(rs, RecipientCents);
            b.ddChangeCents == left >= 0
            && PaidOut(b.tx.outputs, rs, left, TokenScript(c, key), Change(fee.valueSats - feeSats, ChangeTo(c, key, script)),
                       TxOut(0, TransferScript(TransferAmounts(rs, left))))
  {
    var b, left := BuildTransfer(c, dd, fee, key, rs, feeSats, script).value, dd.ddCents - Sum(rs, RecipientCents);
    var change, amounts := Change(fee.valueSats - feeSats, ChangeTo(c, key, script)), TxOut(0, TransferScript(TransferAmounts(rs, left)));
    TransferIsLaidOut(c, dd, fee, key, rs, feeSats, script, b, left, change, amounts);
    TransferOuts(b.tx.outputs, rs, left, c.tweak(c.xOnly(key)), TokenScript(c, key), change, amounts);
  }

  lemma TransferIsLaidOut(c: Crypto, dd: DDCoin, fee: Coin, key: Key, rs: seq<Recipient>, feeSats: int, script: Option<Bytes>,
                          b: Built, left: int, change: seq<TxOut>, amounts: TxOut)
    requires BuildTransfer(c, dd, fee, key, rs, feeSats, script) == Ok(b) && left == dd.ddCents - Sum(rs, RecipientCents)
    requires change == Change(fee.valueSats - feeSats, ChangeTo(c, key, script))
    requires amounts == TxOut(0, TransferScript(TransferAmounts(rs, left)))
    ensures b.ddChangeCents == left >= 0 && b.tx.outputs == TransferTokens(rs, left, c.tweak(c.xOnly(key))) + change + [amounts]
  {
  }

  lemma TransferOuts(outs: seq<TxOut>, rs: seq<Recipient>, left: int, owner: Key32, script: Bytes, change: seq<TxOut>, amounts: TxOut)
    requires left >= 0 && script == [0x51, 0x20] + owner && outs == TransferTokens(rs, left, owner) + change + [amounts]
    ensures PaidOut(outs, rs, left, script, change, amounts)
  {
    var tokens := TransferTokens(rs, left, owner);
    assert outs == tokens + (change + [amounts]);
    forall i | 0 <= i < |rs| ensures outs[i] == TxOut(0, [0x51, 0x20] + rs[i].outputKey) {
      assert tokens[i] == RecipientOuts(rs)[i];
    }
  }

  lemma TransferSigns(c: Crypto, dd: DDCoin, fee: Coin, key: Key, rs: seq<Recipient>, feeSats: int, script: Option<Bytes>)
    requires BuildTransfer(c, dd, fee, key, rs, feeSats, script).Ok?
    ensures var b := BuildTransfer(c, dd, fee, key, rs, feeSats, script).value;
            && b.tx.version == 0x0200_0770 && b.tx.locktime == 0 && SamePlaces(b, 2)
            && Outpoint(b.tx.inputs[0], dd.txid, dd.vout, 0xffff_ffff) && SignedToken(c, b, 0, key)
            && Outpoint(b.tx.inputs[1], fee.txid, fee.vout, 0xffff_ffff) && SignedCoin(c, b, 1, fee)
  {
    var b := BuildTransfer(c, dd, fee, key, rs, feeSats, script).value;
    LegIsSigned(c, b, 1, fee);
  }

  // ---- redeem ----

  /** A redeem is refused exactly under the fee floor, without the fee, or when the coins do not cover the position. */
  lemma RedeemIsBuiltIff(c: Crypto, col: Collateral, dds: seq<DDCoin>, fee: Coin, key: Key, feeSats: int, script: Option<Bytes>)
    ensures BuildRedeem(c, col, dds, fee, key, feeSats, script).Ok? <==>
            feeSats >= 10_000_000 && fee.valueSats >= feeSats && Sum(dds, CentsOf) >= col.ddCents
  {
  }

  /** It returns the whole collateral, and the DigiDollar left over, to the owner. */
  lemma RedeemPays(c: Crypto, col: Collateral, dds: seq<DDCoin>, fee: Coin, key: Key, feeSats: int, script: Option<Bytes>)
    requires BuildRedeem(c, col, dds, fee, key, feeSats, script).Ok?
    ensures var b, left := BuildRedeem(c, col, dds, fee, key, feeSats, script).value, Sum(dds, CentsOf) - col.ddCents;
            && b.ddChangeCents == left >= 0
            && b.tx.outputs == [TxOut(col.valueSats, TokenScript(c, key))]
                               + (if left > 0 then [TxOut(0, TokenScript(c, key)), TxOut(0, RedeemScript(left))] else [])
                               + Change(fee.valueSats - feeSats, ChangeTo(c, key, script))
  {
  }

  /** It opens the collateral by its leaf once the lock is over, burns exactly the coins given, and pays the fee from
      the last coin. */
  lemma RedeemSigns(c: Crypto, col: Collateral, dds: seq<DDCoin>, fee: Coin, key: Key, feeSats: int, script: Option<Bytes>)
    requires BuildRedeem(c, col, dds, fee, key, feeSats, script).Ok?
    ensures var b, last := BuildRedeem(c, col, dds, fee, key, feeSats, script).value, |dds| + 1;
            && b.tx.version == 0x0300_0770 && SamePlaces(b, |dds| + 2)
            && Outpoint(b.tx.inputs[0], col.txid, col.vout, 0xffff_fffe) && SignedCollateral(c, b, 0, col, key)
            && (forall i :: 1 <= i <= |dds| ==>
                  Outpoint(b.tx.inputs[i], dds[i - 1].txid, dds[i - 1].vout, 0xffff_fffe) && SignedToken(c, b, i, key))
            && Outpoint(b.tx.inputs[last], fee.txid, fee.vout, 0xffff_ffff) && SignedCoin(c, b, last, fee)
  {
    var b, owner := BuildRedeem(c, col, dds, fee, key, feeSats, script).value, c.xOnly(key);
    RedeemPlaces(c, col, dds, fee, key, b.tx, b.spent, b.stacks);
    LegIsSigned(c, b, |dds| + 1, fee);
    forall i | 1 <= i <= |dds|
      ensures Outpoint(b.tx.inputs[i], dds[i - 1].txid, dds[i - 1].vout, 0xffff_fffe) && SignedToken(c, b, i, key)
    {
      BurnIsSigned(c, b, i, key);
    }
  }

  lemma BurnIsSigned(c: Crypto, b: Built, i: nat, key: Key)
    requires SamePlaces(b, |b.stacks|) && i < |b.stacks|
    requires b.spent[i] == TxOut(0, P2tr(c.tweak(c.xOnly(key))))
    requires b.stacks[i] == [c.schnorr(key, true, SigHash(b.tx, b.spent, i, false))]
    ensures SignedToken(c, b, i, key)
  {
  }

  /** The collateral first, the burns in order, the fee coin last. */
  lemma RedeemPlaces(c: Crypto, col: Collateral, dds: seq<DDCoin>, fee: Coin, key: Key, tx: Tx, spent: seq<TxOut>, stacks: seq<Stack>)
    requires tx.inputs == [TxIn(col.txid, col.vout, 0xffff_fffe)] + BurnInputs(dds) + [TxIn(fee.txid, fee.vout, 0xffff_ffff)]
    requires spent == [TxOut(col.valueSats, P2tr(c.collateralKey(c.xOnly(key), col.lockHeight, col.ddCents)))]
                      + BurnLegs(P2tr(c.tweak(c.xOnly(key))), |dds|) + [DgbLeg(c, fee)]
    requires stacks == RedeemStacks(c, c.xOnly(key), key, col, |dds|, fee, tx, spent)
    ensures |tx.inputs| == |spent| == |stacks| == |dds| + 2
    ensures spent[0] == TxOut(col.valueSats, P2tr(c.collateralKey(c.xOnly(key), col.lockHeight, col.ddCents)))
    ensures stacks[0] == [c.schnorr(key, false, SigHash(tx, spent, 0, true)),
                          c.leafScript(c.xOnly(key), col.lockHeight, col.ddCents),
                          c.controlBlock(c.xOnly(key), col.lockHeight, col.ddCents)]
    ensures forall i :: 1 <= i <= |dds| ==>
              && Outpoint(tx.inputs[i], dds[i - 1].txid, dds[i - 1].vout, 0xffff_fffe)
              && spent[i] == TxOut(0, P2tr(c.tweak(c.xOnly(key))))
              && stacks[i] == [c.schnorr(key, true, SigHash(tx, spent, i, false))]
    ensures tx.inputs[|dds| + 1] == TxIn(fee.txid, fee.vout, 0xffff_ffff) && spent[|dds| + 1] == DgbLeg(c, fee)
    ensures stacks[|dds| + 1] == SignDgbLeg(c, fee, SigHash(tx, spent, |dds| + 1, false))
  {
  }

  // ---- the DigiDollar under each script ----

  /** The cents the indexer reads on the outputs with this script. */
  function CentsUnder(tokens: seq<Token>, outs: seq<TxOut>, script: Bytes): nat {
    if tokens == [] then 0
    else
      var last := tokens[|tokens| - 1];
      CentsUnder(tokens[..|tokens| - 1], outs, script)
      + if last.vout < |outs| && outs[last.vout].script == script then last.cents else 0
  }

  function SentTo(rs: seq<Recipient>, script: Bytes): int {
    if rs == [] then 0
    else
      var last := rs[|rs| - 1];
      SentTo(rs[..|rs| - 1], script) + if [0x51, 0x20] + last.outputKey == script then last.cents else 0
  }

  lemma {:induction false} CentsOfRecipients(tokens: seq<Token>, outs: seq<TxOut>, rs: seq<Recipient>, script: Bytes)
    requires |tokens| == |rs| <= |outs|
    requires forall i :: 0 <= i < |rs| ==> tokens[i].vout == i && tokens[i].cents == rs[i].cents
    requires forall i :: 0 <= i < |rs| ==> outs[i].script == [0x51, 0x20] + rs[i].outputKey
    ensures CentsUnder(tokens, outs, script) == SentTo(rs, script)
  {
    if rs != [] {
      CentsOfRecipients(tokens[..|rs| - 1], outs, rs[..|rs| - 1], script);
    }
  }

  /** After a transfer that is read as intended, each script holds what its recipients were sent, and the sender's
      script the rest on top. */
  lemma TransferReaches(c: Crypto, dd: DDCoin, fee: Coin, key: Key, rs: seq<Recipient>, feeSats: int, script: Option<Bytes>, who: Bytes)
    requires BuildTransfer(c, dd, fee, key, rs, feeSats, script).Ok?
    requires ReadAsIntended(BuildTransfer(c, dd, fee, key, rs, feeSats, script).value.tx,
                            TransferAmounts(rs, dd.ddCents - Sum(rs, RecipientCents)))
    ensures var tx, left := BuildTransfer(c, dd, fee, key, rs, feeSats, script).value.tx, dd.ddCents - Sum(rs, RecipientCents);
            CentsUnder(DDTokens(tx), tx.outputs, who) == SentTo(rs, who) + if who == TokenScript(c, key) then left else 0
  {
    TransferPays(c, dd, fee, key, rs, feeSats, script);
    var tx, left := BuildTransfer(c, dd, fee, key, rs, feeSats, script).value.tx, dd.ddCents - Sum(rs, RecipientCents);
    AmountsReach(DDTokens(tx), tx.outputs, rs, left, TokenScript(c, key), who);
  }

  lemma AmountsReach(tokens: seq<Token>, outs: seq<TxOut>, rs: seq<Recipient>, left: nat, owner: Bytes, who: Bytes)
    requires var amounts := TransferAmounts(rs, left);
             |tokens| == |amounts| <= |outs|
             && forall i :: 0 <= i < |amounts| ==> tokens[i].vout == i && tokens[i].cents == amounts[i]
    requires forall i :: 0 <= i < |rs| ==> outs[i].script == [0x51, 0x20] + rs[i].outputKey
    requires left > 0 ==> outs[|rs|].script == owner
    ensures CentsUnder(tokens, outs, who) == SentTo(rs, who) + if who == owner then left else 0
  {
    var amounts := TransferAmounts(rs, left);
    assert forall i :: 0 <= i < |rs| ==> amounts[i] == rs[i].cents;
    CentsOfRecipients(tokens[..|rs|], outs, rs, who);
    if left > 0 {
      assert amounts[|rs|] == left;
    } else {
      assert tokens[..|rs|] == tokens;
    }
  }

  // ---- the position a mint opens ----

  /** The indexer reports a built mint, while its collateral is unspent, to its owner and to nobody else: under its
      txid and height, with its cents, tier, unlock height and collateral. */
  lemma MintOpensPosition(c: Crypto, utxo: Coin, m: MintOrder, feeSats: int, h: Seen, getTx: Hash32 -> Tx,
                          unspent: Hash32 -> bool, tweak: Tweak, program: Bytes)
    requires BuildMint(c, utxo, m, feeSats).Ok? && MintInRange(m) && getTx(h.txid) == BuildMint(c, utxo, m, feeSats).value.tx
    requires tweak(c.xOnly(utxo.key)).Some?
    ensures var quote := RequiredCollateralSats(m.ddCents, m.tierId, m.price, m.dcaMultiplierBps);
            && quote.Ok? && TierIndex(m.tierId) < |LOCK_TIERS|
            && m.ddCents > 0 && m.tipHeight + 101 + LOCK_TIERS[TierIndex(m.tierId)].lockBlocks >= 0
            && PositionAt(h, getTx, unspent, tweak, program) ==
                 if tweak(c.xOnly(utxo.key)) == Some(program) && unspent(h.txid)
                 then Some([Position(h.txid, h.height, m.ddCents, Some(m.tierId),
                                     m.tipHeight + 101 + LOCK_TIERS[TierIndex(m.tierId)].lockBlocks, quote.value)])
                 else Some([])
  {
    MintIsReadBack(c, utxo, m, feeSats);
    MintPays(c, utxo, m, feeSats);
  }
}
