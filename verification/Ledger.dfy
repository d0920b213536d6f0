/** A UTXO ledger under the builders: the DigiDollar the indexer finds on unspent outputs is always the
    DigiDollar of the positions it reports open. */
module Ledger {
  import opened Common
  import opened Envelope
  import opened TxWire
  import opened Builders
  import opened CoinSelect
  import opened Indexer

  datatype Mined = Mined(id: Hash32, tx: Tx)

  type Outpoint = (Hash32, int)

  datatype Ledger = Ledger(txs: seq<Mined>, spent: set<Outpoint>)

  // ---- claims: cents that hang on an output until it is spent ----

  /** Which outputs of a transaction carry cents: DDTokens lists its DigiDollar outputs, PositionClaim
      its position's collateral. */
  type Claim = Tx -> seq<Token>

  function PositionClaim(tx: Tx): seq<Token> {
    var m := MintOf(tx);
    if m == None then [] else [Token(0, m.value.ddCents)]
  }

  function Unspent(claims: seq<Token>, id: Hash32, spent: set<Outpoint>): nat {
    if claims == [] then 0
    else
      var n := |claims| - 1;
      Unspent(claims[..n], id, spent) + if (id, claims[n].vout) in spent then 0 else claims[n].cents
  }

  function Balance(claim: Claim, txs: seq<Mined>, spent: set<Outpoint>): nat {
    if txs == [] then 0
    else
      var n := |txs| - 1;
      Balance(claim, txs[..n], spent) + Unspent(claim(txs[n].tx), txs[n].id, spent)
  }

  /** Cents the indexer reports on unspent DigiDollar outputs. */
  function Supply(l: Ledger): nat {
    Balance(DDTokens, l.txs, l.spent)
  }

  /** Cents of the positions the indexer reports open. */
  function OpenCents(l: Ledger): nat {
    Balance(PositionClaim, l.txs, l.spent)
  }

  function Find(txs: seq<Mined>, id: Hash32): Option<Tx> {
    if txs == [] then None
    else if txs[|txs| - 1].id == id then Some(txs[|txs| - 1].tx)
    else Find(txs[..|txs| - 1], id)
  }

  function ClaimAt(claims: seq<Token>, vout: int): nat {
    var c := CentsAt(claims, vout);
    if c == None then 0 else c.value
  }

  /** The cents on an outpoint. */
  function CentsOn(claim: Claim, txs: seq<Mined>, o: Outpoint): nat {
    var tx := Find(txs, o.0);
    if tx == None then 0 else ClaimAt(claim(tx.value), o.1)
  }

  predicate Ascending(claims: seq<Token>) {
    forall i, j :: 0 <= i < j < |claims| ==> claims[i].vout < claims[j].vout
  }

  predicate DistinctIds(txs: seq<Mined>) {
    forall i, j :: 0 <= i < j < |txs| ==> txs[i].id != txs[j].id
  }

  predicate Unused(id: Hash32, txs: seq<Mined>, spent: set<Outpoint>) {
    (forall i :: 0 <= i < |txs| ==> txs[i].id != id) && forall o :: o in spent ==> o.0 != id
  }

  ghost predicate Orderly(claim: Claim) {
    forall tx :: Ascending(claim(tx))
  }

  lemma ClaimsAreOrderly()
    ensures Orderly(DDTokens) && Orderly(PositionClaim)
  {
    forall tx ensures Ascending(DDTokens(tx)) {
      TokensAreOutputs(tx);
    }
  }

  lemma {:induction false} NoClaimBeyond(claims: seq<Token>, vout: int)
    requires forall i :: 0 <= i < |claims| ==> claims[i].vout != vout
    ensures CentsAt(claims, vout) == None
  {
    if claims != [] {
      NoClaimBeyond(claims[..|claims| - 1], vout);
    }
  }

  lemma {:induction false} SpendOther(claims: seq<Token>, id: Hash32, spent: set<Outpoint>, o: Outpoint)
    requires o.0 != id || forall i :: 0 <= i < |claims| ==> claims[i].vout != o.1
    ensures Unspent(claims, id, spent + {o}) == Unspent(claims, id, spent)
  {
    if claims != [] {
      SpendOther(claims[..|claims| - 1], id, spent, o);
    }
  }

  lemma {:induction false} SpendHere(claims: seq<Token>, id: Hash32, spent: set<Outpoint>, vout: int)
    requires Ascending(claims) && (id, vout) !in spent
    ensures Unspent(claims, id, spent + {(id, vout)}) == Unspent(claims, id, spent) - ClaimAt(claims, vout)
  {
    if claims != [] {
      var n := |claims| - 1;
      if claims[n].vout == vout {
        SpendOther(claims[..n], id, spent, (id, vout));
      } else {
        SpendHere(claims[..n], id, spent, vout);
      }
    }
  }

  lemma {:induction false} NotFound(txs: seq<Mined>, id: Hash32)
    ensures Find(txs, id) == None <==> forall i :: 0 <= i < |txs| ==> txs[i].id != id
  {
    if txs != [] {
      NotFound(txs[..|txs| - 1], id);
    }
  }

  lemma {:induction false} SpendElsewhere(claim: Claim, txs: seq<Mined>, spent: set<Outpoint>, o: Outpoint)
    requires forall i :: 0 <= i < |txs| ==> txs[i].id != o.0
    ensures Balance(claim, txs, spent + {o}) == Balance(claim, txs, spent)
  {
    if txs != [] {
      var n := |txs| - 1;
      SpendElsewhere(claim, txs[..n], spent, o);
      SpendOther(claim(txs[n].tx), txs[n].id, spent, o);
    }
  }

  lemma SpendOfLast(claim: Claim, m: Mined, spent: set<Outpoint>, o: Outpoint)
    requires Orderly(claim) && o.0 == m.id && o !in spent
    ensures Unspent(claim(m.tx), m.id, spent + {o})
         == Unspent(claim(m.tx), m.id, spent) - ClaimAt(claim(m.tx), o.1)
  {
    assert o == (m.id, o.1);
    SpendHere(claim(m.tx), m.id, spent, o.1);
  }

  /** Spending one outpoint takes exactly its cents off the balance. */
  lemma {:induction false} SpendOne(claim: Claim, txs: seq<Mined>, spent: set<Outpoint>, o: Outpoint)
    requires Orderly(claim) && DistinctIds(txs) && o !in spent
    ensures Balance(claim, txs, spent + {o}) == Balance(claim, txs, spent) - CentsOn(claim, txs, o)
  {
    if txs != [] {
      var n := |txs| - 1;
      if txs[n].id == o.0 {
        SpendElsewhere(claim, txs[..n], spent, o);
        SpendOfLast(claim, txs[n], spent, o);
      } else {
        SpendOne(claim, txs[..n], spent, o);
        SpendOther(claim(txs[n].tx), txs[n].id, spent, o);
        assert CentsOn(claim, txs, o) == CentsOn(claim, txs[..n], o);
      }
    }
  }

  function Prevout(i: TxIn): Outpoint {
    (i.txid, i.vout)
  }

  function SpendAll(spent: set<Outpoint>, ins: seq<TxIn>): set<Outpoint> {
    if ins == [] then spent else SpendAll(spent, ins[..|ins| - 1]) + {Prevout(ins[|ins| - 1])}
  }

  function CentsSpent(claim: Claim, txs: seq<Mined>, ins: seq<TxIn>): nat {
    if ins == [] then 0 else CentsSpent(claim, txs, ins[..|ins| - 1]) + CentsOn(claim, txs, Prevout(ins[|ins| - 1]))
  }

  predicate DistinctInputs(ins: seq<TxIn>) {
    forall i, j :: 0 <= i < j < |ins| ==> Prevout(ins[i]) != Prevout(ins[j])
  }

  lemma {:induction false} SpentExactly(spent: set<Outpoint>, ins: seq<TxIn>, o: Outpoint)
    ensures o in SpendAll(spent, ins) <==> o in spent || exists i :: 0 <= i < |ins| && Prevout(ins[i]) == o
  {
    if ins != [] {
      SpentExactly(spent, ins[..|ins| - 1], o);
    }
  }

  lemma {:induction false} SpendMany(claim: Claim, txs: seq<Mined>, spent: set<Outpoint>, ins: seq<TxIn>)
    requires Orderly(claim) && DistinctIds(txs) && DistinctInputs(ins)
    requires forall i :: 0 <= i < |ins| ==> Prevout(ins[i]) !in spent
    ensures Balance(claim, txs, SpendAll(spent, ins)) == Balance(claim, txs, spent) - CentsSpent(claim, txs, ins)
  {
    if ins != [] {
      var n := |ins| - 1;
      SpendMany(claim, txs, spent, ins[..n]);
      SpentExactly(spent, ins[..n], Prevout(ins[n]));
      SpendOne(claim, txs, SpendAll(spent, ins[..n]), Prevout(ins[n]));
    }
  }

  function TotalCents(claims: seq<Token>): nat {
    if claims == [] then 0 else TotalCents(claims[..|claims| - 1]) + claims[|claims| - 1].cents
  }

  lemma {:induction false} AllUnspent(claims: seq<Token>, id: Hash32, spent: set<Outpoint>)
    requires forall o :: o in spent ==> o.0 != id
    ensures Unspent(claims, id, spent) == TotalCents(claims)
  {
    if claims != [] {
      AllUnspent(claims[..|claims| - 1], id, spent);
    }
  }

  // ---- steps ----

  /** A transaction enters the ledger under a txid never seen before. */
  function Mine(l: Ledger, id: Hash32, tx: Tx): Ledger {
    Ledger(l.txs + [Mined(id, tx)], SpendAll(l.spent, tx.inputs))
  }

  /** Every input exists unspent, is the output the builder signed for, and is spent once. */
  predicate Spendable(l: Ledger, b: Built) {
    && |b.spent| == |b.tx.inputs| && DistinctInputs(b.tx.inputs)
    && forall i :: 0 <= i < |b.spent| ==> Prevout(b.tx.inputs[i]) !in l.spent && OutputIs(l, Prevout(b.tx.inputs[i]), b.spent[i])
  }

  predicate OutputIs(l: Ledger, o: Outpoint, out: TxOut) {
    var tx := Find(l.txs, o.0);
    tx.Some? && 0 <= o.1 < |tx.value.outputs| && tx.value.outputs[o.1] == out
  }

  datatype Step =
    | Fund(id: Hash32, tx: Tx)
    | DoMint(id: Hash32, utxo: Coin, order: MintOrder, feeSats: int)
    | DoTransfer(id: Hash32, dd: DDCoin, fee: Coin, key: Key, recipients: seq<Recipient>, feeSats: int, script: Option<Bytes>)
    | DoRedeem(id: Hash32, col: Collateral, dds: seq<DDCoin>, fee: Coin, key: Key, feeSats: int, script: Option<Bytes>)
    | DoSpend(id: Hash32, sorted: seq<Coin>, amount: int, rate: nat, recipient: Bytes, changeScript: Bytes)

  function BuildSpendStep(c: Crypto, sorted: seq<Coin>, amount: int, rate: nat, recipient: Bytes, changeScript: Bytes): Result<Built> {
    var plan := PlanFrom(sorted, 0, amount, rate, Some(recipient));
    if plan == None then Err("insufficient funds for amount + fee")
    else BuildSpend(c, plan.value.inputs, recipient, amount, changeScript, plan.value.feeSats)
  }

  function Build(c: Crypto, s: Step): Result<Built> {
    match s
    case Fund(_, tx) => Ok(Built(tx, [], [], 0, 0))
    case DoMint(_, utxo, order, fee) => BuildMint(c, utxo, order, fee)
    case DoTransfer(_, dd, fee, key, rs, feeSats, script) => BuildTransfer(c, dd, fee, key, rs, feeSats, script)
    case DoRedeem(_, col, dds, fee, key, feeSats, script) => BuildRedeem(c, col, dds, fee, key, feeSats, script)
    case DoSpend(_, sorted, amount, rate, recipient, changeScript) =>
      BuildSpendStep(c, sorted, amount, rate, recipient, changeScript)
  }

  /** The cents of a DigiDollar coin are the ones the indexer reports for it. */
  predicate AsIndexed(l: Ledger, dd: DDCoin) {
    CentsOn(DDTokens, l.txs, (dd.txid, dd.vout)) == dd.ddCents
  }

  /** The collateral is a position the indexer reports. */
  predicate AsReported(l: Ledger, col: Collateral) {
    col.vout == 0 && CentsOn(PositionClaim, l.txs, (col.txid, 0)) == col.ddCents && col.valueSats > 0
  }

  /** The keys of the DGB coins a step may spend. */
  function CoinKeys(s: Step): seq<Key> {
    match s
    case Fund(_, _) => []
    case DoMint(_, utxo, _, _) => [utxo.key]
    case DoTransfer(_, _, fee, _, _, _, _) => [fee.key]
    case DoRedeem(_, _, _, fee, _, _, _) => [fee.key]
    case DoSpend(_, sorted, _, _, _, _) => seq(|sorted|, i requires 0 <= i < |sorted| => sorted[i].key)
  }

  /** No position in these transactions has its collateral on this key: collateral keys come from the NUMS
      point, and nobody's own key is one. */
  predicate NotCollateral(c: Crypto, txs: seq<Mined>, key: Key) {
    forall i :: 0 <= i < |txs| ==>
      var m := MintOf(txs[i].tx);
      m.Some? ==> c.collateralKey(AsKey(m.value.ownerKey), m.value.unlockHeight, m.value.ddCents) != c.tweak(c.xOnly(key))
  }

  predicate OwnKeys(c: Crypto, txs: seq<Mined>, keys: seq<Key>) {
    forall i :: 0 <= i < |keys| ==> NotCollateral(c, txs, keys[i])
  }

  /** What a step asks beyond having been built: numbers in push range, DigiDollar coins and positions
      as the indexer reported them, a positive amount to plain spends, harmless change of transfers. */
  predicate Sensible(c: Crypto, l: Ledger, s: Step)
    requires Build(c, s).Ok?
  {
    var b := Build(c, s).value;
    match s
    case Fund(_, tx) => tx.inputs == [] && ParseDDVersion(tx.version) == None
    case DoMint(_, _, order, _) => MintInRange(order)
    case DoTransfer(_, dd, _, key, rs, _, script) =>
      var amounts := TransferAmounts(rs, b.ddChangeCents);
      AsIndexed(l, dd) && AllFit(amounts) && HarmlessChange(b.changeSats, ChangeScript(c, key, script), amounts)
    case DoRedeem(_, col, dds, _, _, _, _) =>
      AsReported(l, col) && (forall i :: 0 <= i < |dds| ==> AsIndexed(l, dds[i])) && AllFit([b.ddChangeCents])
    case DoSpend(_, sorted, amount, _, _, _) => Descending(sorted) && amount > 0
  }

  predicate Allowed(c: Crypto, l: Ledger, s: Step) {
    && Build(c, s).Ok? && Spendable(l, Build(c, s).value) && Unused(s.id, l.txs, l.spent) && Sensible(c, l, s)
    && OwnKeys(c, l.txs, CoinKeys(s))
  }

  function After(c: Crypto, l: Ledger, s: Step): Ledger
    requires Allowed(c, l, s)
  {
    Mine(l, s.id, Build(c, s).value.tx)
  }

  // ---- the invariant ----

  /** Every position's collateral is locked to a collateral key, and its DigiDollar goes to its owner. */
  predicate CollateralLocked(c: Crypto, tx: Tx) {
    MintOf(tx).Some? ==>
      && |tx.outputs| > 1 && tx.outputs[0].valueSats > 0
      && tx.outputs[0].script ==
           P2tr(c.collateralKey(AsKey(MintOf(tx).value.ownerKey), MintOf(tx).value.unlockHeight, MintOf(tx).value.ddCents))
      && tx.outputs[1].script == P2tr(c.tweak(AsKey(MintOf(tx).value.ownerKey)))
  }

  function AsKey(b: Bytes): Key32 {
    if |b| == 32 then b else seq(32, i => 0)
  }

  predicate AllLocked(c: Crypto, txs: seq<Mined>) {
    forall i :: 0 <= i < |txs| ==> CollateralLocked(c, txs[i].tx)
  }

  ghost predicate Inv(c: Crypto, l: Ledger) {
    && DistinctIds(l.txs) && AllLocked(c, l.txs)
    && (forall o :: o in l.spent ==> Find(l.txs, o.0).Some?)
    && Supply(l) == OpenCents(l)
  }

  lemma {:induction false} CentsAtSome(claims: seq<Token>, vout: int)
    requires CentsAt(claims, vout).Some?
    ensures exists i :: 0 <= i < |claims| && claims[i].vout == vout
  {
    if claims[|claims| - 1].vout != vout {
      CentsAtSome(claims[..|claims| - 1], vout);
    }
  }

  /** An output of value carries no DigiDollar. */
  lemma ValueIsNotToken(l: Ledger, o: Outpoint, out: TxOut)
    requires OutputIs(l, o, out) && out.valueSats != 0
    ensures CentsOn(DDTokens, l.txs, o) == 0
  {
    var tx := Find(l.txs, o.0).value;
    TokensAreOutputs(tx);
    if CentsAt(DDTokens(tx), o.1).Some? {
      CentsAtSome(DDTokens(tx), o.1);
      assert false;
    }
  }

  lemma {:induction false} FoundIsMined(txs: seq<Mined>, id: Hash32) returns (i: nat)
    requires Find(txs, id).Some?
    ensures i < |txs| && txs[i].id == id && txs[i].tx == Find(txs, id).value
  {
    if txs[|txs| - 1].id == id {
      i := |txs| - 1;
    } else {
      i := FoundIsMined(txs[..|txs| - 1], id);
    }
  }

  /** An output of no value, on a key that is no collateral key, or not taproot, is no position's collateral. */
  lemma OwnKeyIsNotCollateral(c: Crypto, l: Ledger, o: Outpoint, out: TxOut, key: Key)
    requires AllLocked(c, l.txs) && OutputIs(l, o, out)
    requires out.valueSats == 0 || |out.script| != 34 || (out.script == P2tr(c.tweak(c.xOnly(key))) && NotCollateral(c, l.txs, key))
    ensures CentsOn(PositionClaim, l.txs, o) == 0
  {
    var tx := Find(l.txs, o.0).value;
    var i := FoundIsMined(l.txs, o.0);
    assert CollateralLocked(c, l.txs[i].tx);
    P2trInjective();
    if MintOf(tx) == None || o.1 != 0 {
      NoClaimBeyond(PositionClaim(tx), o.1);
    }
  }

  lemma P2trInjective()
    ensures forall k1: Key32, k2: Key32 :: P2tr(k1) == P2tr(k2) ==> k1 == k2
  {
    forall k1: Key32, k2: Key32 | P2tr(k1) == P2tr(k2) ensures k1 == k2 {
      assert k1 == P2tr(k1)[2..] && k2 == P2tr(k2)[2..];
    }
  }

  /** Mining a transaction whose new claims balance what it spends keeps the balance of both kinds. */
  lemma MineBalance(claim: Claim, l: Ledger, id: Hash32, tx: Tx)
    requires Orderly(claim) && DistinctIds(l.txs) && Unused(id, l.txs, l.spent)
    requires DistinctInputs(tx.inputs)
    requires forall i :: 0 <= i < |tx.inputs| ==> Prevout(tx.inputs[i]) !in l.spent && tx.inputs[i].txid != id
    ensures Balance(claim, Mine(l, id, tx).txs, Mine(l, id, tx).spent)
         == Balance(claim, l.txs, l.spent) - CentsSpent(claim, l.txs, tx.inputs) + TotalCents(claim(tx))
  {
    var spent := SpendAll(l.spent, tx.inputs);
    SpendMany(claim, l.txs, l.spent, tx.inputs);
    forall o | o in spent ensures o.0 != id {
      SpentExactly(l.spent, tx.inputs, o);
    }
    AllUnspent(claim(tx), id, spent);
    assert Mine(l, id, tx).txs[..|l.txs|] == l.txs;
  }

  lemma InputsAreOld(l: Ledger, id: Hash32, b: Built)
    requires Spendable(l, b) && Unused(id, l.txs, l.spent)
    ensures forall i :: 0 <= i < |b.tx.inputs| ==> Prevout(b.tx.inputs[i]) !in l.spent && b.tx.inputs[i].txid != id
  {
    NotFound(l.txs, id);
    forall i | 0 <= i < |b.tx.inputs| ensures Prevout(b.tx.inputs[i]) !in l.spent && b.tx.inputs[i].txid != id {
      assert OutputIs(l, Prevout(b.tx.inputs[i]), b.spent[i]);
    }
  }

  // ---- the steps keep it ----

  /** What each leg of an input list takes off the balance. */
  lemma {:induction false} NothingSpent(claim: Claim, txs: seq<Mined>, ins: seq<TxIn>)
    requires forall i :: 0 <= i < |ins| ==> CentsOn(claim, txs, Prevout(ins[i])) == 0
    ensures CentsSpent(claim, txs, ins) == 0
  {
    if ins != [] {
      NothingSpent(claim, txs, ins[..|ins| - 1]);
    }
  }

  lemma {:induction false} SpentConcat(claim: Claim, txs: seq<Mined>, a: seq<TxIn>, b: seq<TxIn>)
    ensures CentsSpent(claim, txs, a + b) == CentsSpent(claim, txs, a) + CentsSpent(claim, txs, b)
  {
    if b == [] {
      assert a + b == a;
    } else {
      var n := |a + b| - 1;
      assert (a + b)[..n] == a + b[..|b| - 1];
      SpentConcat(claim, txs, a, b[..|b| - 1]);
    }
  }

  lemma SpentOne(claim: Claim, txs: seq<Mined>, i: TxIn)
    ensures CentsSpent(claim, txs, [i]) == CentsOn(claim, txs, Prevout(i))
  {
    assert [i][..0] == [];
    assert CentsSpent(claim, txs, [i]) == CentsSpent(claim, txs, [i][..0]) + CentsOn(claim, txs, Prevout([i][0]));
  }

  /** A DGB coin of value carries no claim of either kind. */
  lemma DgbLegIsFree(c: Crypto, l: Ledger, u: Coin, i: TxIn)
    requires AllLocked(c, l.txs) && NotCollateral(c, l.txs, u.key) && OutputIs(l, Prevout(i), DgbLeg(c, u)) && u.valueSats > 0
    ensures CentsOn(DDTokens, l.txs, Prevout(i)) == 0 && CentsOn(PositionClaim, l.txs, Prevout(i)) == 0
  {
    ValueIsNotToken(l, Prevout(i), DgbLeg(c, u));
    if !u.v0 {
      assert DgbScript(c, u) == P2tr(c.tweak(c.xOnly(u.key)));
    }
    OwnKeyIsNotCollateral(c, l, Prevout(i), DgbLeg(c, u), u.key);
  }

  /** What a step spends and what it creates, in cents of each kind. */
  predicate Moves(l: Ledger, tx: Tx, tokensIn: int, tokensOut: int, closed: int, openedCents: int) {
    && CentsSpent(DDTokens, l.txs, tx.inputs) == tokensIn && TotalCents(DDTokens(tx)) == tokensOut
    && CentsSpent(PositionClaim, l.txs, tx.inputs) == closed && TotalCents(PositionClaim(tx)) == openedCents
  }

  lemma TotalOfOne(t: Token)
    ensures TotalCents([t]) == t.cents
  {
    assert [t][..0] == [];
    assert TotalCents([t]) == TotalCents([t][..0]) + [t][0].cents;
  }

  lemma MintLegs(c: Crypto, s: Step)
    requires s.DoMint? && Build(c, s).Ok? && MintInRange(s.order)
    ensures var b := Build(c, s).value; |b.tx.inputs| == 1 && b.spent == [DgbLeg(c, s.utxo)] && s.utxo.valueSats > 0
  {
    CollateralIsPositive(s.order.ddCents, s.order.tierId, s.order.price, s.order.dcaMultiplierBps);
  }

  /** What a mint creates. */
  lemma MintReads(c: Crypto, s: Step)
    requires s.DoMint? && Build(c, s).Ok? && MintInRange(s.order)
    ensures var tx := Build(c, s).value.tx;
            && TotalCents(DDTokens(tx)) == s.order.ddCents && TotalCents(PositionClaim(tx)) == s.order.ddCents
            && CollateralLocked(c, tx)
  {
    MintIsReadBack(c, s.utxo, s.order, s.feeSats);
    TotalOfOne(Token(1, s.order.ddCents));
    TotalOfOne(Token(0, s.order.ddCents));
  }

  /** The input spends this DGB coin, which is of value and on a key that holds no collateral. */
  predicate FreeLeg(c: Crypto, l: Ledger, i: TxIn, u: Coin) {
    u.valueSats > 0 && NotCollateral(c, l.txs, u.key) && OutputIs(l, Prevout(i), DgbLeg(c, u))
  }

  /** Such inputs spend no claim. */
  lemma {:induction false} FreeInputs(c: Crypto, l: Ledger, ins: seq<TxIn>, us: seq<Coin>)
    requires AllLocked(c, l.txs) && |us| == |ins| && forall i :: 0 <= i < |us| ==> FreeLeg(c, l, ins[i], us[i])
    ensures CentsSpent(DDTokens, l.txs, ins) == 0 && CentsSpent(PositionClaim, l.txs, ins) == 0
  {
    if ins != [] {
      var n := |ins| - 1;
      assert FreeLeg(c, l, ins[n], us[n]);
      DgbLegIsFree(c, l, us[n], ins[n]);
      FreeInputs(c, l, ins[..n], us[..n]);
    }
  }

  lemma MintMoves(c: Crypto, l: Ledger, s: Step)
    requires Inv(c, l) && Allowed(c, l, s) && s.DoMint?
    ensures Moves(l, Build(c, s).value.tx, 0, s.order.ddCents, 0, s.order.ddCents)
    ensures CollateralLocked(c, Build(c, s).value.tx)
  {
    var b := Build(c, s).value;
    MintReads(c, s);
    MintLegs(c, s);
    assert CoinKeys(s)[0] == s.utxo.key;
    assert OutputIs(l, Prevout(b.tx.inputs[0]), b.spent[0]);
    assert FreeLeg(c, l, b.tx.inputs[0], [s.utxo][0]);
    FreeInputs(c, l, b.tx.inputs, [s.utxo]);
  }

  lemma {:induction false} TokenTotal(tokens: seq<Token>, amounts: seq<int>)
    requires |tokens| == |amounts| && forall i :: 0 <= i < |amounts| ==> tokens[i].cents == amounts[i]
    ensures TotalCents(tokens) == SumOf(amounts)
  {
    if tokens != [] {
      var n := |tokens| - 1;
      TokenTotal(tokens[..n], amounts[..n]);
    }
  }

  /** What a transfer creates. */
  lemma TransferReads(c: Crypto, l: Ledger, s: Step)
    requires Allowed(c, l, s) && s.DoTransfer?
    ensures var tx := Build(c, s).value.tx;
            && TotalCents(DDTokens(tx)) == s.dd.ddCents && TotalCents(PositionClaim(tx)) == 0 && CollateralLocked(c, tx)
  {
    var b := Build(c, s).value;
    TransferIsReadBack(c, s.dd, s.fee, s.key, s.recipients, s.feeSats, s.script);
    TransferConserves(c, s.dd, s.fee, s.key, s.recipients, s.feeSats, s.script);
    TokenTotal(DDTokens(b.tx), TransferAmounts(s.recipients, b.ddChangeCents));
  }

  lemma TransferLegs(c: Crypto, s: Step)
    requires s.DoTransfer? && Build(c, s).Ok?
    ensures var b := Build(c, s).value;
            && |b.tx.inputs| == 2 && Prevout(b.tx.inputs[0]) == (s.dd.txid, s.dd.vout)
            && |b.spent| == 2 && b.spent[0].valueSats == 0 && b.spent[1] == DgbLeg(c, s.fee) && s.fee.valueSats > 0
  {
  }

  lemma TransferMoves(c: Crypto, l: Ledger, s: Step)
    requires Inv(c, l) && Allowed(c, l, s) && s.DoTransfer?
    ensures Moves(l, Build(c, s).value.tx, s.dd.ddCents, s.dd.ddCents, 0, 0)
    ensures CollateralLocked(c, Build(c, s).value.tx)
  {
    TransferReads(c, l, s);
    TransferSpends(c, l, s);
  }

  lemma TransferSpends(c: Crypto, l: Ledger, s: Step)
    requires Inv(c, l) && Allowed(c, l, s) && s.DoTransfer?
    ensures CentsSpent(DDTokens, l.txs, Build(c, s).value.tx.inputs) == s.dd.ddCents
    ensures CentsSpent(PositionClaim, l.txs, Build(c, s).value.tx.inputs) == 0
  {
    var b := Build(c, s).value;
    TransferLegs(c, s);
    var dd, fee := b.tx.inputs[0], b.tx.inputs[1];
    assert CoinKeys(s)[0] == s.fee.key;
    assert OutputIs(l, Prevout(dd), b.spent[0]) && OutputIs(l, Prevout(fee), b.spent[1]);
    assert b.tx.inputs == [dd] + [fee];
    TokenThenFee(c, l, s, dd, b.spent[0], fee);
  }

  lemma TokenThenFee(c: Crypto, l: Ledger, s: Step, dd: TxIn, out: TxOut, fee: TxIn)
    requires AllLocked(c, l.txs) && s.DoTransfer? && AsIndexed(l, s.dd) && Prevout(dd) == (s.dd.txid, s.dd.vout)
    requires OutputIs(l, Prevout(dd), out) && out.valueSats == 0
    requires OutputIs(l, Prevout(fee), DgbLeg(c, s.fee)) && s.fee.valueSats > 0 && NotCollateral(c, l.txs, s.fee.key)
    ensures CentsSpent(DDTokens, l.txs, [dd] + [fee]) == s.dd.ddCents
    ensures CentsSpent(PositionClaim, l.txs, [dd] + [fee]) == 0
  {
    DgbLegIsFree(c, l, s.fee, fee);
    OwnKeyIsNotCollateral(c, l, Prevout(dd), out, s.key);
    SpentConcat(DDTokens, l.txs, [dd], [fee]);
    SpentConcat(PositionClaim, l.txs, [dd], [fee]);
    SpentOne(DDTokens, l.txs, dd);
    SpentOne(DDTokens, l.txs, fee);
    SpentOne(PositionClaim, l.txs, dd);
    SpentOne(PositionClaim, l.txs, fee);
  }

  lemma {:induction false} BurnSpends(l: Ledger, dds: seq<DDCoin>)
    requires forall i :: 0 <= i < |dds| ==> AsIndexed(l, dds[i])
    ensures CentsSpent(DDTokens, l.txs, BurnInputs(dds)) == Sum(dds, CentsOf)
  {
    if dds != [] {
      var n := |dds| - 1;
      BurnSpends(l, dds[..n]);
      assert BurnInputs(dds)[..n] == BurnInputs(dds[..n]);
    }
  }

  lemma RedeemLegs(c: Crypto, s: Step)
    requires s.DoRedeem? && Build(c, s).Ok?
    ensures var b := Build(c, s).value;
            var n := |s.dds|;
            && |b.tx.inputs| == |b.spent| == n + 2
            && b.tx.inputs == [b.tx.inputs[0]] + BurnInputs(s.dds) + [b.tx.inputs[n + 1]]
            && Prevout(b.tx.inputs[0]) == (s.col.txid, s.col.vout)
            && b.spent[0].valueSats == s.col.valueSats && b.spent[n + 1] == DgbLeg(c, s.fee)
            && forall i :: 1 <= i <= n ==> b.spent[i].valueSats == 0 && b.tx.inputs[i] == BurnInputs(s.dds)[i - 1]
  {
  }

  /** The burned coins are worth no satoshis, so none of them is collateral. */
  lemma BurnsHoldNoPosition(c: Crypto, l: Ledger, s: Step)
    requires Inv(c, l) && Allowed(c, l, s) && s.DoRedeem?
    ensures CentsSpent(PositionClaim, l.txs, BurnInputs(s.dds)) == 0
  {
    var b := Build(c, s).value;
    RedeemLegs(c, s);
    var burns := BurnInputs(s.dds);
    forall i | 0 <= i < |burns| ensures CentsOn(PositionClaim, l.txs, Prevout(burns[i])) == 0 {
      assert b.tx.inputs[i + 1] == burns[i];
      assert OutputIs(l, Prevout(b.tx.inputs[i + 1]), b.spent[i + 1]);
      OwnKeyIsNotCollateral(c, l, Prevout(burns[i]), b.spent[i + 1], s.key);
    }
    NothingSpent(PositionClaim, l.txs, burns);
  }

  lemma RedeemSpends(c: Crypto, l: Ledger, s: Step)
    requires Inv(c, l) && Allowed(c, l, s) && s.DoRedeem?
    ensures CentsSpent(DDTokens, l.txs, Build(c, s).value.tx.inputs) == Sum(s.dds, CentsOf)
    ensures CentsSpent(PositionClaim, l.txs, Build(c, s).value.tx.inputs) == s.col.ddCents
  {
    var b := Build(c, s).value;
    var n := |s.dds|;
    RedeemLegs(c, s);
    var first, burns, last := b.tx.inputs[0], BurnInputs(s.dds), b.tx.inputs[n + 1];
    assert OutputIs(l, Prevout(first), b.spent[0]) && OutputIs(l, Prevout(last), b.spent[n + 1]);
    ValueIsNotToken(l, Prevout(first), b.spent[0]);
    assert CoinKeys(s)[0] == s.fee.key;
    DgbLegIsFree(c, l, s.fee, last);
    BurnsHoldNoPosition(c, l, s);
    BurnSpends(l, s.dds);
    ThreeLegs(DDTokens, l.txs, first, burns, last);
    ThreeLegs(PositionClaim, l.txs, first, burns, last);
  }

  lemma ThreeLegs(claim: Claim, txs: seq<Mined>, first: TxIn, burns: seq<TxIn>, last: TxIn)
    ensures CentsSpent(claim, txs, [first] + burns + [last])
         == CentsOn(claim, txs, Prevout(first)) + CentsSpent(claim, txs, burns) + CentsOn(claim, txs, Prevout(last))
  {
    SpentConcat(claim, txs, [first] + burns, [last]);
    SpentConcat(claim, txs, [first], burns);
    SpentOne(claim, txs, first);
    SpentOne(claim, txs, last);
  }

  lemma RedeemMoves(c: Crypto, l: Ledger, s: Step)
    requires Inv(c, l) && Allowed(c, l, s) && s.DoRedeem?
    ensures var b := Build(c, s).value;
            Moves(l, Build(c, s).value.tx, s.col.ddCents + b.ddChangeCents, b.ddChangeCents, s.col.ddCents, 0)
    ensures CollateralLocked(c, Build(c, s).value.tx)
  {
    var b := Build(c, s).value;
    RedeemIsReadBack(c, s.col, s.dds, s.fee, s.key, s.feeSats, s.script);
    RedeemConserves(c, s.col, s.dds, s.fee, s.key, s.feeSats, s.script);
    if b.ddChangeCents > 0 {
      TotalOfOne(Token(1, b.ddChangeCents));
    }
    RedeemSpends(c, l, s);
  }

  /** The coins of a planned spend are a prefix of the sorted ones, all of value. */
  lemma PlannedCoins(c: Crypto, s: Step) returns (us: seq<Coin>)
    requires s.DoSpend? && Build(c, s).Ok? && Descending(s.sorted) && s.amount > 0
    ensures |us| <= |s.sorted| && us == s.sorted[..|us|] && forall i :: 0 <= i < |us| ==> us[i].valueSats > 0
    ensures var b := Build(c, s).value;
            && |b.tx.inputs| == |b.spent| == |us| && (forall i :: 0 <= i < |us| ==> b.spent[i] == DgbLeg(c, us[i]))
            && ParseDDVersion(b.tx.version) == None
  {
    us := PlanFrom(s.sorted, 0, s.amount, s.rate, Some(s.recipient)).value.inputs;
    PlanAddsUp(s.sorted, s.sorted, s.amount, s.rate, Some(s.recipient));
    PlanIsFirst(s.sorted, 0, s.amount, s.rate, Some(s.recipient));
    PlainVersion();
  }

  lemma SpendMoves(c: Crypto, l: Ledger, s: Step)
    requires Inv(c, l) && Allowed(c, l, s) && s.DoSpend?
    ensures Moves(l, Build(c, s).value.tx, 0, 0, 0, 0)
    ensures CollateralLocked(c, Build(c, s).value.tx)
  {
    var b := Build(c, s).value;
    var us := PlannedCoins(c, s);
    PlainIsNotRead(b.tx);
    forall i | 0 <= i < |us| ensures FreeLeg(c, l, b.tx.inputs[i], us[i]) {
      assert CoinKeys(s)[i] == us[i].key;
      assert OutputIs(l, Prevout(b.tx.inputs[i]), b.spent[i]);
    }
    FreeInputs(c, l, b.tx.inputs, us);
  }

  lemma FundMoves(c: Crypto, l: Ledger, s: Step)
    requires Allowed(c, l, s) && s.Fund?
    ensures Moves(l, Build(c, s).value.tx, 0, 0, 0, 0)
    ensures CollateralLocked(c, Build(c, s).value.tx)
  {
    PlainIsNotRead(s.tx);
  }

  /** The balances after mining. */
  lemma MineMoves(l: Ledger, id: Hash32, b: Built, tokensIn: int, tokensOut: int, closed: int, openedCents: int)
    requires DistinctIds(l.txs) && Spendable(l, b) && Unused(id, l.txs, l.spent)
    requires Moves(l, b.tx, tokensIn, tokensOut, closed, openedCents)
    ensures Supply(Mine(l, id, b.tx)) == Supply(l) + tokensOut - tokensIn
    ensures OpenCents(Mine(l, id, b.tx)) == OpenCents(l) + openedCents - closed
  {
    InputsAreOld(l, id, b);
    ClaimsAreOrderly();
    MineBalance(DDTokens, l, id, b.tx);
    MineBalance(PositionClaim, l, id, b.tx);
  }

  lemma MineKeeps(c: Crypto, l: Ledger, id: Hash32, b: Built, tokensIn: int, tokensOut: int, closed: int, openedCents: int)
    requires Inv(c, l) && Spendable(l, b) && Unused(id, l.txs, l.spent) && CollateralLocked(c, b.tx)
    requires Moves(l, b.tx, tokensIn, tokensOut, closed, openedCents) && tokensOut - tokensIn == openedCents - closed
    ensures Inv(c, Mine(l, id, b.tx))
    ensures Supply(Mine(l, id, b.tx)) == Supply(l) + tokensOut - tokensIn
  {
    MineMoves(l, id, b, tokensIn, tokensOut, closed, openedCents);
    forall o | o in Mine(l, id, b.tx).spent ensures Find(Mine(l, id, b.tx).txs, o.0).Some? {
      SpentIsFound(l, id, b, o);
    }
  }

  lemma SpentIsFound(l: Ledger, id: Hash32, b: Built, o: Outpoint)
    requires Spendable(l, b) && o in SpendAll(l.spent, b.tx.inputs)
    requires forall o :: o in l.spent ==> Find(l.txs, o.0).Some?
    ensures Find(Mine(l, id, b.tx).txs, o.0).Some?
  {
    SpentExactly(l.spent, b.tx.inputs, o);
    if o !in l.spent {
      var i :| 0 <= i < |b.tx.inputs| && Prevout(b.tx.inputs[i]) == o;
      assert OutputIs(l, Prevout(b.tx.inputs[i]), b.spent[i]);
    }
    assert Mine(l, id, b.tx).txs[..|l.txs|] == l.txs;
  }

  /** How many cents of DigiDollar a step creates: a mint its amount, a redeem minus its position. */
  function Created(s: Step): int {
    match s
    case DoMint(_, _, order, _) => order.ddCents
    case DoRedeem(_, col, _, _, _, _, _) => -col.ddCents
    case _ => 0
  }

  lemma DDStepKeeps(c: Crypto, l: Ledger, s: Step)
    requires Inv(c, l) && Allowed(c, l, s) && (s.DoMint? || s.DoTransfer? || s.DoRedeem?)
    ensures Inv(c, After(c, l, s)) && Supply(After(c, l, s)) == Supply(l) + Created(s)
  {
    var b := Build(c, s).value;
    if s.DoMint? {
      MintMoves(c, l, s);
      MineKeeps(c, l, s.id, b, 0, s.order.ddCents, 0, s.order.ddCents);
    } else if s.DoTransfer? {
      TransferMoves(c, l, s);
      MineKeeps(c, l, s.id, b, s.dd.ddCents, s.dd.ddCents, 0, 0);
    } else {
      RedeemMoves(c, l, s);
      MineKeeps(c, l, s.id, b, s.col.ddCents + b.ddChangeCents, b.ddChangeCents, s.col.ddCents, 0);
    }
  }

  lemma StepKeeps(c: Crypto, l: Ledger, s: Step)
    requires Inv(c, l) && Allowed(c, l, s)
    ensures Inv(c, After(c, l, s)) && Supply(After(c, l, s)) == Supply(l) + Created(s)
  {
    if s.Fund? {
      FundMoves(c, l, s);
      MineKeeps(c, l, s.id, Build(c, s).value, 0, 0, 0, 0);
    } else if s.DoSpend? {
      SpendMoves(c, l, s);
      MineKeeps(c, l, s.id, Build(c, s).value, 0, 0, 0, 0);
    } else {
      DDStepKeeps(c, l, s);
    }
  }

  // ---- runs ----

  const EMPTY := Ledger([], {})

  ghost predicate AllowedRun(c: Crypto, l: Ledger, steps: seq<Step>)
    decreases |steps|
  {
    steps != [] ==> Allowed(c, l, steps[0]) && AllowedRun(c, After(c, l, steps[0]), steps[1..])
  }

  ghost function Run(c: Crypto, l: Ledger, steps: seq<Step>): Ledger
    requires AllowedRun(c, l, steps)
    decreases |steps|
  {
    if steps == [] then l else Run(c, After(c, l, steps[0]), steps[1..])
  }

  function AllCreated(steps: seq<Step>): int {
    if steps == [] then 0 else Created(steps[0]) + AllCreated(steps[1..])
  }

  lemma {:induction false} RunKeeps(c: Crypto, l: Ledger, steps: seq<Step>)
    requires Inv(c, l) && AllowedRun(c, l, steps)
    ensures Inv(c, Run(c, l, steps)) && Supply(Run(c, l, steps)) == Supply(l) + AllCreated(steps)
    decreases |steps|
  {
    if steps != [] {
      StepKeeps(c, l, steps[0]);
      RunKeeps(c, After(c, l, steps[0]), steps[1..]);
    }
  }

  /** Along every run of mints, transfers, redeems and planned spends, the cents on unspent DigiDollar
      outputs are the cents of the open positions, and equal all that was minted less all redeemed. */
  lemma SupplyIsBacked(c: Crypto, steps: seq<Step>)
    requires AllowedRun(c, EMPTY, steps)
    ensures var l := Run(c, EMPTY, steps);
            Supply(l) == OpenCents(l) == AllCreated(steps)
  {
    RunKeeps(c, EMPTY, steps);
  }
}
