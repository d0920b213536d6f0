/** apps/indexer/server.js: how DigiDollar amounts and positions are read off transactions, and that what
    the builders write is read as they meant it. */
module Indexer {
  import opened Common
  import opened Envelope
  import opened TxWire
  import opened Builders

  /** One DigiDollar output: which vout, how many cents. */
  datatype Token = Token(vout: nat, cents: nat)

  predicate StartsOpReturn(script: Bytes) {
    script != [] && script[0] == 0x6a
  }

  /** Zero value and a script that begins 5120. */
  predicate IsTokenOut(o: TxOut) {
    o.valueSats == 0 && |o.script| >= 2 && o.script[0] == 0x51 && o.script[1] == 0x20
  }

  /** The first output whose script begins 6a. */
  function FirstOpReturn(outs: seq<TxOut>): Option<Bytes> {
    if outs == [] then None
    else if StartsOpReturn(outs[0].script) then Some(outs[0].script)
    else FirstOpReturn(outs[1..])
  }

  function TokenVouts(outs: seq<TxOut>): (r: seq<nat>)
    ensures forall i :: 0 <= i < |r| ==> r[i] < |outs| && IsTokenOut(outs[r[i]])
    ensures forall i, j :: 0 <= i < j < |r| ==> r[i] < r[j]
  {
    if outs == [] then []
    else
      var n := |outs| - 1;
      TokenVouts(outs[..n]) + (if IsTokenOut(outs[n]) then [n] else [])
  }

  /** The cents the metadata lists; None where the source returns null. */
  function ListedAmounts(tx: Tx): Option<seq<nat>> {
    var opReturn := FirstOpReturn(tx.outputs);
    match ParseDDVersion(tx.version)
    case None => None
    case Some(Mint) =>
      if opReturn == None then None
      else
        var m := ParseMintMetadata(opReturn.value);
        if m == None then None else Some([m.value.ddCents])
    case Some(Transfer) => if opReturn == None then None else ParseTransferMetadata(opReturn.value)
    case Some(Redeem) =>
      if opReturn == None then Some([])
      else
        var change := ParseRedeemMetadata(opReturn.value);
        if change == None then None else Some([change.value])
  }

  /** Positions pair up while both lists last. */
  function Pair(vouts: seq<nat>, amounts: seq<nat>): (r: seq<Token>)
    ensures |r| == if |vouts| < |amounts| then |vouts| else |amounts|
    ensures forall i :: 0 <= i < |r| ==> r[i] == Token(vouts[i], amounts[i])
  {
    var n := if |vouts| < |amounts| then |vouts| else |amounts|;
    seq(n, i requires 0 <= i < n => Token(vouts[i], amounts[i]))
  }

  /** ddAmountsByVout: its Map as a list of entries; no entries where it returns null. */
  function DDTokens(tx: Tx): seq<Token> {
    var amounts := ListedAmounts(tx);
    if amounts == None then [] else Pair(TokenVouts(tx.outputs), amounts.value)
  }

  /** An entry is always a zero-value P2TR output of the transaction, and no output has two. */
  lemma TokensAreOutputs(tx: Tx)
    ensures forall i :: 0 <= i < |DDTokens(tx)| ==>
              DDTokens(tx)[i].vout < |tx.outputs| && IsTokenOut(tx.outputs[DDTokens(tx)[i].vout])
    ensures forall i, j :: 0 <= i < j < |DDTokens(tx)| ==> DDTokens(tx)[i].vout < DDTokens(tx)[j].vout
  {
  }

  /** The mint a transaction is, if it is one. */
  function MintOf(tx: Tx): Option<MintMeta> {
    var opReturn := FirstOpReturn(tx.outputs);
    if ParseDDVersion(tx.version) != Some(Mint) || opReturn == None then None else ParseMintMetadata(opReturn.value)
  }

  // ---- the scans ----

  datatype Seen = Seen(txid: Hash32, height: int)

  datatype Position = Position(txid: Hash32, height: int, ddCents: nat, tierId: Option<string>, unlockHeight: nat,
                               collateralSats: int)

  /** ddTokenOutputKey: the token program of an owner key, or None where it throws (no such curve point). */
  type Tweak = Bytes -> Option<Bytes>

  /** What one history entry contributes: the outer None is a throw that ends the scan. */
  function PositionAt(h: Seen, getTx: Hash32 -> Tx, collateralUnspent: Hash32 -> bool, tweak: Tweak, program: Bytes)
    : Option<seq<Position>>
  {
    var tx := getTx(h.txid);
    var meta := MintOf(tx);
    if meta == None || tx.outputs == [] then Some([])
    else if tweak(meta.value.ownerKey) == None then None
    else if tweak(meta.value.ownerKey) != Some(program) || !collateralUnspent(h.txid) then Some([])
    else
      Some([Position(h.txid, h.height, meta.value.ddCents,
                     if meta.value.lockTier < |LOCK_TIERS| then Some(LOCK_TIERS[meta.value.lockTier].id) else None,
                     meta.value.unlockHeight, tx.outputs[0].valueSats)])
  }

  function PositionsIn(history: seq<Seen>, getTx: Hash32 -> Tx, collateralUnspent: Hash32 -> bool, tweak: Tweak,
                       program: Bytes): Option<seq<Position>>
  {
    if history == [] then Some([])
    else
      var n := |history| - 1;
      var before := PositionsIn(history[..n], getTx, collateralUnspent, tweak, program);
      var last := PositionAt(history[n], getTx, collateralUnspent, tweak, program);
      if before == None || last == None then None else Some(before.value + last.value)
  }

  lemma NextEntry(history: seq<Seen>, i: nat, getTx: Hash32 -> Tx, collateralUnspent: Hash32 -> bool, tweak: Tweak, program: Bytes)
    requires i < |history|
    ensures var before := PositionsIn(history[..i], getTx, collateralUnspent, tweak, program);
            var next := PositionAt(history[i], getTx, collateralUnspent, tweak, program);
            PositionsIn(history[..i + 1], getTx, collateralUnspent, tweak, program)
            == if before == None || next == None then None else Some(before.value + next.value)
  {
    assert history[..i + 1][..i] == history[..i];
  }

  lemma {:induction false} ThrowStays(history: seq<Seen>, n: nat, getTx: Hash32 -> Tx, collateralUnspent: Hash32 -> bool,
                                      tweak: Tweak, program: Bytes)
    requires n <= |history| && PositionsIn(history[..n], getTx, collateralUnspent, tweak, program) == None
    ensures PositionsIn(history, getTx, collateralUnspent, tweak, program) == None
    decreases |history|
  {
    if n < |history| {
      assert history[..|history| - 1][..n] == history[..n];
      ThrowStays(history[..|history| - 1], n, getTx, collateralUnspent, tweak, program);
    } else {
      assert history[..n] == history;
    }
  }

  /** scanPositions: the open positions of an owner, in history order. None is the exception that an owner
      key off the curve throws, which nothing in the loop catches. */
  method ScanPositions(history: seq<Seen>, getTx: Hash32 -> Tx, collateralUnspent: Hash32 -> bool, tweak: Tweak,
                       program: Bytes) returns (found: Option<seq<Position>>)
    ensures found == PositionsIn(history, getTx, collateralUnspent, tweak, program)
  {
    var positions: seq<Position> := [];
    for i := 0 to |history|
      invariant Some(positions) == PositionsIn(history[..i], getTx, collateralUnspent, tweak, program)
    {
      NextEntry(history, i, getTx, collateralUnspent, tweak, program);
      assert positions + [] == positions;
      var h := history[i];
      var tx := getTx(h.txid);
      var version := ParseDDVersion(tx.version);
      if version != Some(Mint) {
        continue;
      }
      var opReturn := FirstOpReturn(tx.outputs);
      if opReturn == None {
        continue;
      }
      var meta := ParseMintMetadata(opReturn.value);
      if meta == None {
        continue;
      }
      var key := tweak(meta.value.ownerKey);
      if key == None {
        ThrowStays(history, i + 1, getTx, collateralUnspent, tweak, program);
        return None;
      }
      if key.value != program {
        continue;
      }
      var collateral := tx.outputs[0];
      if !collateralUnspent(h.txid) {
        continue;
      }
      var tier := if meta.value.lockTier < |LOCK_TIERS| then Some(LOCK_TIERS[meta.value.lockTier].id) else None;
      positions := positions + [Position(h.txid, h.height, meta.value.ddCents, tier, meta.value.unlockHeight, collateral.valueSats)];
    }
    assert history[..|history|] == history;
    found := Some(positions);
  }

  /** One mint with an owner key off the curve in the history ends the scan, whoever it belongs to. */
  lemma {:induction false} ScanThrowsIff(history: seq<Seen>, getTx: Hash32 -> Tx, collateralUnspent: Hash32 -> bool, tweak: Tweak,
                                         program: Bytes)
    ensures PositionsIn(history, getTx, collateralUnspent, tweak, program) == None <==> AnyOffCurve(history, getTx, tweak)
  {
    if history != [] {
      var n := |history| - 1;
      ScanThrowsIff(history[..n], getTx, collateralUnspent, tweak, program);
      EntryThrowsIff(history[n], getTx, collateralUnspent, tweak, program);
      OneMoreEntry(history[..n], history[n], getTx, tweak);
      assert history == history[..n] + [history[n]];
    }
  }

  ghost predicate AnyOffCurve(history: seq<Seen>, getTx: Hash32 -> Tx, tweak: Tweak) {
    exists i :: 0 <= i < |history| && OffCurve(getTx(history[i].txid), tweak)
  }

  lemma OneMoreEntry(history: seq<Seen>, h: Seen, getTx: Hash32 -> Tx, tweak: Tweak)
    ensures AnyOffCurve(history + [h], getTx, tweak) <==> AnyOffCurve(history, getTx, tweak) || OffCurve(getTx(h.txid), tweak)
  {
    var all := history + [h];
    if OffCurve(getTx(h.txid), tweak) {
      assert OffCurve(getTx(all[|history|].txid), tweak);
    }
    if i :| 0 <= i < |history| && OffCurve(getTx(history[i].txid), tweak) {
      assert OffCurve(getTx(all[i].txid), tweak);
    }
  }

  lemma EntryThrowsIff(h: Seen, getTx: Hash32 -> Tx, collateralUnspent: Hash32 -> bool, tweak: Tweak, program: Bytes)
    ensures PositionAt(h, getTx, collateralUnspent, tweak, program) == None <==> OffCurve(getTx(h.txid), tweak)
  {
    MintHasOutputs(getTx(h.txid));
  }

  predicate OffCurve(tx: Tx, tweak: Tweak) {
    var meta := MintOf(tx);
    meta.Some? && tweak(meta.value.ownerKey) == None
  }

  lemma MintHasOutputs(tx: Tx)
    ensures MintOf(tx).Some? ==> tx.outputs != []
  {
  }

  datatype Utxo = Utxo(txid: Hash32, vout: int, value: int, height: int)

  datatype DDUtxo = DDUtxo(txid: Hash32, vout: int, cents: nat, height: int)

  function CentsAt(tokens: seq<Token>, vout: int): Option<nat> {
    if tokens == [] then None
    else if tokens[|tokens| - 1].vout == vout then Some(tokens[|tokens| - 1].cents)
    else CentsAt(tokens[..|tokens| - 1], vout)
  }

  function DDUtxosIn(unspent: seq<Utxo>, getTx: Hash32 -> Tx): seq<DDUtxo> {
    if unspent == [] then []
    else
      var n := |unspent| - 1;
      var u := unspent[n];
      var cents := CentsAt(DDTokens(getTx(u.txid)), u.vout);
      DDUtxosIn(unspent[..n], getTx)
      + if u.value != 0 || cents == None then [] else [DDUtxo(u.txid, u.vout, cents.value, u.height)]
  }

  /** scanDDUtxos, with its per-call memo of parsed amounts. */
  method ScanDDUtxos(unspent: seq<Utxo>, getTx: Hash32 -> Tx) returns (out: seq<DDUtxo>)
    ensures out == DDUtxosIn(unspent, getTx)
  {
    out := [];
    var memo: map<Hash32, seq<Token>> := map[];
    for i := 0 to |unspent|
      invariant forall id :: id in memo ==> memo[id] == DDTokens(getTx(id))
      invariant out == DDUtxosIn(unspent[..i], getTx)
    {
      assert unspent[..i + 1][..i] == unspent[..i];
      var u := unspent[i];
      if u.value != 0 {
        continue;
      }
      if u.txid !in memo {
        memo := memo[u.txid := DDTokens(getTx(u.txid))];
      }
      var cents := CentsAt(memo[u.txid], u.vout);
      if cents == None {
        continue;
      }
      out := out + [DDUtxo(u.txid, u.vout, cents.value, u.height)];
    }
    assert unspent[..|unspent|] == unspent;
  }

  lemma {:induction false} CentsAtIff(tokens: seq<Token>, vout: int, cents: nat)
    requires forall i, j :: 0 <= i < j < |tokens| ==> tokens[i].vout < tokens[j].vout
    ensures CentsAt(tokens, vout) == Some(cents) <==> exists t :: t in tokens && t.vout == vout && t.cents == cents
  {
    if tokens != [] {
      var n := |tokens| - 1;
      CentsAtIff(tokens[..n], vout, cents);
      assert tokens == tokens[..n] + [tokens[n]];
      forall t | t in tokens[..n] ensures t.vout < tokens[n].vout {
        var i :| 0 <= i < n && tokens[i] == t;
      }
    }
  }

  /** u is an unspent DigiDollar output, and d says which one, since when and with how many cents. */
  ghost predicate ReportOf(u: Utxo, d: DDUtxo, getTx: Hash32 -> Tx) {
    && u.value == 0 && d.txid == u.txid && d.vout == u.vout && d.height == u.height
    && exists t :: t in DDTokens(getTx(u.txid)) && t.vout == u.vout && t.cents == d.cents
  }

  /** A list built element by element has what some element adds. */
  lemma {:induction false} MemberByMember<T(!new), U>(xs: seq<T>, f: seq<T> -> seq<U>, adds: T -> seq<U>, from: T -> bool, y: U)
    requires f([]) == [] && forall us, u :: f(us + [u]) == f(us) + adds(u)
    requires forall u :: y in adds(u) <==> from(u)
    ensures y in f(xs) <==> exists x :: x in xs && from(x)
  {
    if xs != [] {
      var front, last := xs[..|xs| - 1], xs[|xs| - 1];
      MemberByMember(front, f, adds, from, y);
      assert xs == front + [last];
      assert f(xs) == f(front) + adds(last);
      assert forall x :: x in xs <==> x in front || x == last;
    }
  }

  /** scanDDUtxos reports exactly the unspent outputs that carry cents, each as it is. */
  lemma ReportsWhatCarriesCents(unspent: seq<Utxo>, getTx: Hash32 -> Tx, d: DDUtxo)
    ensures d in DDUtxosIn(unspent, getTx) <==> exists u :: u in unspent && ReportOf(u, d, getTx)
  {
    ghost var from: Utxo -> bool := u => ReportOf(u, d, getTx);
    var f := (us: seq<Utxo>) => DDUtxosIn(us, getTx);
    var adds := (u: Utxo) => Report(u, getTx);
    forall us, u ensures f(us + [u]) == f(us) + adds(u) {
      LastReport(us, u, getTx);
    }
    forall u ensures d in adds(u) <==> from(u) {
      OneReport(u, getTx, d);
    }
    MemberByMember(unspent, f, adds, from, d);
  }

  lemma LastReport(us: seq<Utxo>, u: Utxo, getTx: Hash32 -> Tx)
    ensures DDUtxosIn(us + [u], getTx) == DDUtxosIn(us, getTx) + Report(u, getTx)
  {
    assert (us + [u])[..|us|] == us;
  }

  /** What one unspent output adds to the list. */
  function Report(u: Utxo, getTx: Hash32 -> Tx): seq<DDUtxo> {
    var cents := CentsAt(DDTokens(getTx(u.txid)), u.vout);
    if u.value != 0 || cents == None then [] else [DDUtxo(u.txid, u.vout, cents.value, u.height)]
  }

  lemma OneReport(u: Utxo, getTx: Hash32 -> Tx, d: DDUtxo)
    ensures d in Report(u, getTx) <==> ReportOf(u, d, getTx)
  {
    var tokens := DDTokens(getTx(u.txid));
    TokensAreOutputs(getTx(u.txid));
    var cents := CentsAt(tokens, u.vout);
    CentsAtIff(tokens, u.vout, d.cents);
    if cents.Some? {
      CentsAtIff(tokens, u.vout, cents.value);
    }
  }

  // ---- reading what the builders wrote ----

  lemma TypeReadsBack(t: DDType)
    ensures ParseDDVersion(BuildDDVersion(t)) == Some(t)
  {
    VersionReadsBack(t, 0, 0);
  }

  lemma PlainVersion()
    ensures ParseDDVersion(2) == None
  {
  }

  lemma {:induction false} OpReturnAfter(before: seq<TxOut>, o: TxOut, after: seq<TxOut>)
    requires forall i :: 0 <= i < |before| ==> !StartsOpReturn(before[i].script)
    requires StartsOpReturn(o.script)
    ensures FirstOpReturn(before + [o] + after) == Some(o.script)
  {
    var outs := before + [o] + after;
    if before != [] {
      assert outs[0] == before[0] && outs[1..] == before[1..] + [o] + after;
      OpReturnAfter(before[1..], o, after);
    } else {
      assert outs[0] == o;
    }
  }

  lemma {:induction false} NoOpReturn(outs: seq<TxOut>)
    requires forall i :: 0 <= i < |outs| ==> !StartsOpReturn(outs[i].script)
    ensures FirstOpReturn(outs) == None
  {
    if outs != [] {
      NoOpReturn(outs[1..]);
    }
  }

  lemma {:induction false} AllTokens(outs: seq<TxOut>)
    requires forall i :: 0 <= i < |outs| ==> IsTokenOut(outs[i])
    ensures |TokenVouts(outs)| == |outs| && forall i :: 0 <= i < |outs| ==> TokenVouts(outs)[i] == i
  {
    if outs != [] {
      AllTokens(outs[..|outs| - 1]);
    }
  }

  lemma {:induction false} NoMoreTokens(outs: seq<TxOut>, more: seq<TxOut>)
    requires forall i :: 0 <= i < |more| ==> !IsTokenOut(more[i])
    ensures TokenVouts(outs + more) == TokenVouts(outs)
  {
    if more == [] {
      assert outs + more == outs;
    } else {
      var n := |outs + more| - 1;
      assert (outs + more)[..n] == outs + more[..|more| - 1];
      NoMoreTokens(outs, more[..|more| - 1]);
    }
  }

  /** One token output among others. */
  lemma OneToken(outs: seq<TxOut>, before: seq<TxOut>, token: TxOut, rest: seq<TxOut>)
    requires outs == before + [token] + rest && IsTokenOut(token)
    requires forall i :: 0 <= i < |before| ==> !IsTokenOut(before[i])
    requires forall i :: 0 <= i < |rest| ==> !IsTokenOut(rest[i])
    ensures TokenVouts(outs) == [|before|]
  {
    NoMoreTokens([], before);
    assert [] + before == before;
    TokenAppended(before, token);
    NoMoreTokens(before + [token], rest);
  }

  lemma TokenAppended(outs: seq<TxOut>, token: TxOut)
    requires IsTokenOut(token)
    ensures TokenVouts(outs + [token]) == TokenVouts(outs) + [|outs|]
  {
    assert (outs + [token])[..|outs|] == outs;
  }

  lemma ScriptStarts(m: MintMeta, amounts: seq<nat>, change: nat)
    ensures StartsOpReturn(MintScript(m)) && StartsOpReturn(TransferScript(amounts)) && StartsOpReturn(RedeemScript(change))
  {
  }

  /** A mint's collateral is worth something as long as the multiplier is positive. */
  lemma CollateralIsPositive(ddCents: int, tierId: string, price: int, dcaMultiplierBps: int)
    requires RequiredCollateralSats(ddCents, tierId, price, dcaMultiplierBps).Ok? && dcaMultiplierBps > 0
    ensures RequiredCollateralSats(ddCents, tierId, price, dcaMultiplierBps).value > 0
  {
    var ratio := LOCK_TIERS[TierIndex(tierId)].ratioPercent;
    assert ratio > 0;
    Positive(ratio, dcaMultiplierBps);
    CeilDivLeast(ratio * dcaMultiplierBps, DCA_BPS_SCALE);
    var eff := EffectiveRatioPercent(ratio, dcaMultiplierBps);
    assert eff > 0;
    Positive(ddCents * COIN, eff);
    CeilDivLeast(ddCents * COIN * eff * 100, price);
    var base := BaseSats(ddCents, eff, price);
    if base <= 0 {
      Positioning(base, price);
    }
    assert base > 0;
  }

  lemma Positive(a: int, b: int)
    requires a > 0 && b > 0
    ensures a * b > 0
  {
  }

  lemma Positioning(q: int, d: int)
    requires q <= 0 && d > 0
    ensures q * d <= 0
  {
  }

  function MintMetaOf(c: Crypto, utxo: Coin, m: MintOrder): MintMeta
    requires TierIndex(m.tierId) < |LOCK_TIERS| && m.ddCents >= 0 && UnlockHeight(m) >= 0
  {
    MintMeta(m.ddCents, UnlockHeight(m), TierIndex(m.tierId), c.xOnly(utxo.key))
  }

  predicate MintInRange(m: MintOrder) {
    && m.dcaMultiplierBps > 0 && TierIndex(m.tierId) < |LOCK_TIERS| && m.ddCents >= 0 && UnlockHeight(m) >= 0
    && Envelope.Fits(m.ddCents) && Envelope.Fits(UnlockHeight(m))
  }

  lemma TierFits(i: nat)
    requires i < 128
    ensures Envelope.Fits(i)
  {
    assert LeDigits(i) == if i == 0 then [] else [i % 256] + LeDigits(i / 256);
  }

  /** A mint gives its cents to the token output and to nothing else, and is read as the position it opens. */
  lemma MintIsReadBack(c: Crypto, utxo: Coin, m: MintOrder, feeSats: int)
    requires BuildMint(c, utxo, m, feeSats).Ok? && MintInRange(m)
    ensures var tx := BuildMint(c, utxo, m, feeSats).value.tx;
            && DDTokens(tx) == [Token(1, m.ddCents)] && MintOf(tx) == Some(MintMetaOf(c, utxo, m))
            && tx.outputs[0].valueSats > 0
            && tx.outputs[0].script == P2tr(c.collateralKey(c.xOnly(utxo.key), UnlockHeight(m), m.ddCents))
            && |tx.outputs| > 1 && tx.outputs[1].script == P2tr(c.tweak(c.xOnly(utxo.key)))
  {
    var b := BuildMint(c, utxo, m, feeSats).value;
    var meta := MintMetaOf(c, utxo, m);
    var collateral := RequiredCollateralSats(m.ddCents, m.tierId, m.price, m.dcaMultiplierBps).value;
    var outs := MintOutputs(c, meta.ownerKey, meta, collateral);
    var change := ChangeOut(b.changeSats, P2wpkh(c.hash160(utxo.key)));
    assert b.tx.outputs == outs + change;
    CollateralIsPositive(m.ddCents, m.tierId, m.price, m.dcaMultiplierBps);
    TierFits(meta.lockTier);
    MintOutsAreRead(outs[0], outs[1], meta, change, b.tx);
  }

  lemma MintOutsAreRead(first: TxOut, token: TxOut, meta: MintMeta, change: seq<TxOut>, tx: Tx)
    requires tx.version == BuildDDVersion(Mint)
    requires tx.outputs == [first, token, TxOut(0, MintScript(meta))] + change
    requires first.valueSats > 0 && !StartsOpReturn(first.script) && IsTokenOut(token) && |meta.ownerKey| == 32
    requires forall i :: 0 <= i < |change| ==> change[i].valueSats != 0
    requires Envelope.Fits(meta.ddCents) && Envelope.Fits(meta.unlockHeight) && Envelope.Fits(meta.lockTier)
    ensures DDTokens(tx) == [Token(1, meta.ddCents)] && MintOf(tx) == Some(meta)
  {
    var note := TxOut(0, MintScript(meta));
    ScriptStarts(meta, [], 0);
    assert tx.outputs == [first, token] + [note] + change;
    OpReturnAfter([first, token], note, change);
    assert tx.outputs == [first] + [token] + ([note] + change);
    OneToken(tx.outputs, [first], token, [note] + change);
    TypeReadsBack(Mint);
    MintScriptReadsBack(meta);
  }

  predicate AllFit(amounts: seq<int>) {
    forall i :: 0 <= i < |amounts| ==> amounts[i] >= 0 && Envelope.Fits(amounts[i])
  }

  lemma TransferLists(tx: Tx, script: Bytes)
    requires tx.version == BuildDDVersion(Transfer) && FirstOpReturn(tx.outputs) == Some(script)
    ensures ListedAmounts(tx) == ParseTransferMetadata(script) && MintOf(tx) == None
  {
    TypeReadsBack(Transfer);
  }

  lemma MetaOutIsFirst(tokens: seq<TxOut>, change: seq<TxOut>, meta: TxOut, outs: seq<TxOut>)
    requires outs == tokens + change + [meta] && StartsOpReturn(meta.script)
    requires forall i :: 0 <= i < |tokens| ==> IsTokenOut(tokens[i])
    requires forall i :: 0 <= i < |change| ==> change[i].valueSats != 0 && !StartsOpReturn(change[i].script)
    ensures FirstOpReturn(outs) == Some(meta.script) && TokenVouts(outs) == TokenVouts(tokens)
  {
    OpReturnAfter(tokens + change, meta, []);
    assert tokens + change + [meta] + [] == outs;
    assert outs == tokens + (change + [meta]);
    NoMoreTokens(tokens, change + [meta]);
  }

  lemma TransferOutsAreRead(tokens: seq<TxOut>, change: seq<TxOut>, amounts: seq<nat>, tx: Tx)
    requires tx.version == BuildDDVersion(Transfer) && tx.outputs == tokens + change + [TxOut(0, TransferScript(amounts))]
    requires forall i :: 0 <= i < |tokens| ==> IsTokenOut(tokens[i])
    requires forall i :: 0 <= i < |change| ==> change[i].valueSats != 0 && !StartsOpReturn(change[i].script)
    requires |amounts| == |tokens| > 0 && AllFit(amounts)
    ensures DDTokens(tx) == Pair(TokenVouts(tokens), amounts) && MintOf(tx) == None
  {
    ScriptStarts(MintMeta(0, 0, 0, []), amounts, 0);
    MetaOutIsFirst(tokens, change, TxOut(0, TransferScript(amounts)), tx.outputs);
    TransferLists(tx, TransferScript(amounts));
    TransferReadsBack(amounts);
  }

  /** The DGB change of a transfer does not get in the way of its amounts: it is folded away, or goes to no
      OP_RETURN script, or to one that lists the same amounts first. */
  predicate HarmlessChange(changeSats: int, script: Bytes, amounts: seq<int>) {
    || changeSats == 0 || !StartsOpReturn(script)
    || (var listed := ParseTransferMetadata(script); listed.Some? && amounts <= listed.value)
  }

  /** Each recipient has its cents and the change output the rest, in order, and no other output any. */
  predicate ReadAsIntended(tx: Tx, amounts: seq<int>) {
    |DDTokens(tx)| == |amounts| && forall i :: 0 <= i < |amounts| ==> DDTokens(tx)[i].vout == i && DDTokens(tx)[i].cents == amounts[i]
  }

  /** A change script that begins OP_RETURN is read in place of the transfer's own metadata. */
  lemma HiddenOutsAreRead(tokens: seq<TxOut>, change: TxOut, meta: TxOut, tx: Tx)
    requires tx.version == BuildDDVersion(Transfer) && tx.outputs == tokens + [change] + [meta]
    requires forall i :: 0 <= i < |tokens| ==> IsTokenOut(tokens[i])
    requires change.valueSats != 0 && StartsOpReturn(change.script) && StartsOpReturn(meta.script)
    ensures FirstOpReturn(tx.outputs) == Some(change.script) && TokenVouts(tx.outputs) == TokenVouts(tokens)
  {
    OpReturnAfter(tokens, change, [meta]);
    assert tx.outputs == tokens + ([change] + [meta]);
    NoMoreTokens(tokens, [change] + [meta]);
  }

  lemma HiddenTransfer(tokens: seq<TxOut>, change: TxOut, meta: TxOut, amounts: seq<nat>, tx: Tx, listed: Option<seq<nat>>)
    requires tx.version == BuildDDVersion(Transfer) && tx.outputs == tokens + [change] + [meta]
    requires |amounts| == |tokens| > 0 && forall i :: 0 <= i < |tokens| ==> IsTokenOut(tokens[i])
    requires change.valueSats != 0 && StartsOpReturn(change.script) && StartsOpReturn(meta.script)
    requires listed == ParseTransferMetadata(change.script)
    ensures MintOf(tx) == None
    ensures ReadAsIntended(tx, amounts) <==> listed.Some? && amounts <= listed.value
  {
    HiddenTokens(tokens, change, meta, tx);
    AllTokens(tokens);
    PairsAgree(TokenVouts(tokens), amounts, listed);
  }

  lemma HiddenTokens(tokens: seq<TxOut>, change: TxOut, meta: TxOut, tx: Tx)
    requires tx.version == BuildDDVersion(Transfer) && tx.outputs == tokens + [change] + [meta]
    requires forall i :: 0 <= i < |tokens| ==> IsTokenOut(tokens[i])
    requires change.valueSats != 0 && StartsOpReturn(change.script) && StartsOpReturn(meta.script)
    ensures MintOf(tx) == None
    ensures var listed := ParseTransferMetadata(change.script);
            DDTokens(tx) == if listed == None then [] else Pair(TokenVouts(tokens), listed.value)
  {
    HiddenOutsAreRead(tokens, change, meta, tx);
    TransferLists(tx, change.script);
  }

  /** A transfer with amounts in push range is read back as intended exactly when its DGB change is harmless;
      it is never read as a mint. */
  lemma TransferIsReadBack(c: Crypto, dd: DDCoin, fee: Coin, key: Key, rs: seq<Recipient>, feeSats: int, script: Option<Bytes>)
    requires BuildTransfer(c, dd, fee, key, rs, feeSats, script).Ok?
    requires AllFit(TransferAmounts(rs, BuildTransfer(c, dd, fee, key, rs, feeSats, script).value.ddChangeCents))
    ensures var b := BuildTransfer(c, dd, fee, key, rs, feeSats, script).value;
            var amounts := TransferAmounts(rs, b.ddChangeCents);
            && MintOf(b.tx) == None
            && (ReadAsIntended(b.tx, amounts) <==> HarmlessChange(b.changeSats, ChangeScript(c, key, script), amounts))
  {
    var b := BuildTransfer(c, dd, fee, key, rs, feeSats, script).value;
    var amounts := TransferAmounts(rs, b.ddChangeCents);
    var tokens := TransferTokens(rs, b.ddChangeCents, c.tweak(c.xOnly(key)));
    var toScript := ChangeScript(c, key, script);
    AllTokens(tokens);
    if b.changeSats == 0 || !StartsOpReturn(toScript) {
      TransferOutsAreRead(tokens, ChangeOut(b.changeSats, toScript), amounts, b.tx);
    } else {
      assert ChangeOut(b.changeSats, toScript) == [TxOut(b.changeSats, toScript)];
      ScriptStarts(MintMeta(0, 0, 0, []), amounts, 0);
      HiddenTransfer(tokens, TxOut(b.changeSats, toScript), TxOut(0, TransferScript(amounts)), amounts, b.tx,
                     ParseTransferMetadata(toScript));
    }
  }

  /** Positions paired with listed amounts are the intended tokens exactly when the list begins with them. */
  lemma PairsAgree(vouts: seq<nat>, amounts: seq<int>, listed: Option<seq<nat>>)
    requires |vouts| == |amounts| > 0 && forall i :: 0 <= i < |vouts| ==> vouts[i] == i
    ensures var tokens := if listed == None then [] else Pair(vouts, listed.value);
            (|tokens| == |amounts| && forall i :: 0 <= i < |amounts| ==> tokens[i].vout == i && tokens[i].cents == amounts[i])
            <==> (listed.Some? && amounts <= listed.value)
  {
    if listed.Some? && |listed.value| >= |amounts| {
      var tokens := Pair(vouts, listed.value);
      if forall i :: 0 <= i < |amounts| ==> tokens[i].vout == i && tokens[i].cents == amounts[i] {
        forall i | 0 <= i < |amounts| ensures amounts[i] == listed.value[i] {
          assert tokens[i] == Token(vouts[i], listed.value[i]);
        }
      }
    }
  }

  /** In particular, with DGB change to an OP_RETURN script that is no transfer metadata, no output of the
      transfer has any cents. */
  lemma OpReturnChangeHidesTokens(c: Crypto, dd: DDCoin, fee: Coin, key: Key, rs: seq<Recipient>, feeSats: int, script: Bytes)
    requires BuildTransfer(c, dd, fee, key, rs, feeSats, Some(script)).Ok?
    requires BuildTransfer(c, dd, fee, key, rs, feeSats, Some(script)).value.changeSats > 0
    requires StartsOpReturn(script) && ParseTransferMetadata(script) == None
    ensures DDTokens(BuildTransfer(c, dd, fee, key, rs, feeSats, Some(script)).value.tx) == []
  {
    var b := BuildTransfer(c, dd, fee, key, rs, feeSats, Some(script)).value;
    var tokens := TransferTokens(rs, b.ddChangeCents, c.tweak(c.xOnly(key)));
    var meta := TxOut(0, TransferScript(TransferAmounts(rs, b.ddChangeCents)));
    assert b.tx.outputs == tokens + [TxOut(b.changeSats, script)] + [meta];
    OpReturnAfter(tokens, TxOut(b.changeSats, script), [meta]);
    TypeReadsBack(Transfer);
  }

  /** A redeem gives its DigiDollar change to the one change output, wherever its DGB change goes. */
  lemma RedeemIsReadBack(c: Crypto, col: Collateral, dds: seq<DDCoin>, fee: Coin, key: Key, feeSats: int, script: Option<Bytes>)
    requires BuildRedeem(c, col, dds, fee, key, feeSats, script).Ok? && col.valueSats > 0
    requires AllFit([BuildRedeem(c, col, dds, fee, key, feeSats, script).value.ddChangeCents])
    ensures var b := BuildRedeem(c, col, dds, fee, key, feeSats, script).value;
            && MintOf(b.tx) == None
            && DDTokens(b.tx) == if b.ddChangeCents > 0 then [Token(1, b.ddChangeCents)] else []
  {
    var b := BuildRedeem(c, col, dds, fee, key, feeSats, script).value;
    assert [b.ddChangeCents][0] == b.ddChangeCents;
    var owner := c.xOnly(key);
    var first := TxOut(col.valueSats, P2tr(c.tweak(owner)));
    var change := ChangeOut(b.changeSats, ChangeScript(c, key, script));
    TypeReadsBack(Redeem);
    if b.ddChangeCents > 0 {
      var token, meta := TxOut(0, P2tr(c.tweak(owner))), TxOut(0, RedeemScript(b.ddChangeCents));
      assert b.tx.outputs == [first, token] + [meta] + change;
      RedeemChangeIsRead(first, token, b.ddChangeCents, change, b.tx);
    } else {
      assert b.tx.outputs == [] + ([first] + change);
      NoMoreTokens([], [first] + change);
    }
  }

  lemma RedeemChangeIsRead(first: TxOut, token: TxOut, cents: nat, change: seq<TxOut>, tx: Tx)
    requires tx.version == BuildDDVersion(Redeem)
    requires tx.outputs == [first, token] + [TxOut(0, RedeemScript(cents))] + change
    requires first.valueSats > 0 && IsTokenOut(token) && !StartsOpReturn(first.script) && Envelope.Fits(cents)
    requires forall i :: 0 <= i < |change| ==> change[i].valueSats != 0
    ensures DDTokens(tx) == [Token(1, cents)]
  {
    var meta := TxOut(0, RedeemScript(cents));
    TypeReadsBack(Redeem);
    ScriptStarts(MintMeta(0, 0, 0, []), [], cents);
    OpReturnAfter([first, token], meta, change);
    assert tx.outputs == [first] + [token] + ([meta] + change);
    OneToken(tx.outputs, [first], token, [meta] + change);
    RedeemScriptReadsBack(cents);
  }

  lemma PlainIsNotRead(tx: Tx)
    requires ParseDDVersion(tx.version) == None
    ensures DDTokens(tx) == [] && MintOf(tx) == None
  {
  }
}
