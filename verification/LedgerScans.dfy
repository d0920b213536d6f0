/** What the indexer answers about a whole ledger: the spendable scans of all addresses together find exactly
    the supply, and the position scans of all owners together exactly the open positions. */
module LedgerScans {
  import opened Common
  import opened TxWire
  import opened Builders
  import opened Indexer
  import opened Ledger

  /** The node serves the ledger's transactions by their ids. */
  ghost predicate Serves(getTx: Hash32 -> Tx, txs: seq<Mined>) {
    forall i :: 0 <= i < |txs| ==> getTx(txs[i].id) == txs[i].tx
  }

  lemma ServesFound(getTx: Hash32 -> Tx, txs: seq<Mined>, id: Hash32)
    requires Serves(getTx, txs) && Find(txs, id).Some?
    ensures getTx(id) == Find(txs, id).value
  {
    var i := FoundIsMined(txs, id);
  }

  lemma {:induction false} MinedIsFound(txs: seq<Mined>, i: nat)
    requires DistinctIds(txs) && i < |txs|
    ensures Find(txs, txs[i].id) == Some(txs[i].tx)
  {
    if i < |txs| - 1 {
      MinedIsFound(txs[..|txs| - 1], i);
    }
  }

  /** With every claim spent nothing is left. */
  lemma {:induction false} AllSpentIsZero(claim: Claim, txs: seq<Mined>, spent: set<Outpoint>)
    requires forall i :: 0 <= i < |txs| ==> AllSpent(claim(txs[i].tx), txs[i].id, spent)
    ensures Balance(claim, txs, spent) == 0
  {
    if txs != [] {
      var n := |txs| - 1;
      AllSpentIsZero(claim, txs[..n], spent);
      SpentClaimsAreZero(claim(txs[n].tx), txs[n].id, spent);
    }
  }

  predicate AllSpent(claims: seq<Token>, id: Hash32, spent: set<Outpoint>) {
    forall k :: 0 <= k < |claims| ==> (id, claims[k].vout) in spent
  }

  lemma {:induction false} SpentClaimsAreZero(claims: seq<Token>, id: Hash32, spent: set<Outpoint>)
    requires AllSpent(claims, id, spent)
    ensures Unspent(claims, id, spent) == 0
  {
    if claims != [] {
      SpentClaimsAreZero(claims[..|claims| - 1], id, spent);
    }
  }

  /** A list of unspent outpoints that covers every claim carries the whole balance. */
  lemma ListedIsBalance(claim: Claim, l: Ledger, ins: seq<TxIn>)
    requires Orderly(claim) && DistinctIds(l.txs) && DistinctInputs(ins)
    requires forall i :: 0 <= i < |ins| ==> Prevout(ins[i]) !in l.spent
    requires forall i :: 0 <= i < |l.txs| ==> AllSpent(claim(l.txs[i].tx), l.txs[i].id, SpendAll(l.spent, ins))
    ensures CentsSpent(claim, l.txs, ins) == Balance(claim, l.txs, l.spent)
  {
    SpendMany(claim, l.txs, l.spent, ins);
    AllSpentIsZero(claim, l.txs, SpendAll(l.spent, ins));
  }

  // ---- spendable DigiDollar ----

  function AsInput(u: Utxo): TxIn {
    TxIn(u.txid, u.vout, 0)
  }

  function AsInputs(us: seq<Utxo>): (ins: seq<TxIn>)
    ensures |ins| == |us| && forall i :: 0 <= i < |us| ==> ins[i] == AsInput(us[i])
  {
    seq(|us|, i requires 0 <= i < |us| => AsInput(us[i]))
  }

  /** An unspent output of the ledger, with its value. */
  predicate IsUnspent(l: Ledger, u: Utxo) {
    && (u.txid, u.vout) !in l.spent
    && var tx := Find(l.txs, u.txid);
    && tx.Some? && 0 <= u.vout < |tx.value.outputs| && u.value == tx.value.outputs[u.vout].valueSats
  }

  /** Every unspent output of the ledger, each once. */
  ghost predicate ListsUnspent(l: Ledger, us: seq<Utxo>) {
    && (forall i :: 0 <= i < |us| ==> IsUnspent(l, us[i]))
    && DistinctInputs(AsInputs(us))
    && (forall i, v :: 0 <= i < |l.txs| && 0 <= v < |l.txs[i].tx.outputs| && (l.txs[i].id, v) !in l.spent ==>
          exists k :: 0 <= k < |us| && Prevout(AsInputs(us)[k]) == (l.txs[i].id, v))
  }

  function SumCents(ds: seq<DDUtxo>): nat {
    if ds == [] then 0 else SumCents(ds[..|ds| - 1]) + ds[|ds| - 1].cents
  }

  lemma SumCentsOne(ds: seq<DDUtxo>, d: DDUtxo)
    ensures SumCents(ds + [d]) == SumCents(ds) + d.cents
  {
    assert (ds + [d])[..|ds|] == ds;
  }

  lemma OneFound(l: Ledger, u: Utxo, getTx: Hash32 -> Tx)
    requires Serves(getTx, l.txs) && IsUnspent(l, u)
    ensures var cents := CentsAt(DDTokens(getTx(u.txid)), u.vout);
            CentsOn(DDTokens, l.txs, Prevout(AsInput(u))) == if u.value != 0 || cents == None then 0 else cents.value
  {
    ServesFound(getTx, l.txs, u.txid);
    if u.value != 0 {
      ValueIsNotToken(l, Prevout(AsInput(u)), Find(l.txs, u.txid).value.outputs[u.vout]);
    }
  }

  /** What the scan finds on a list of unspent outputs. */
  lemma {:induction false} ScanFinds(l: Ledger, us: seq<Utxo>, getTx: Hash32 -> Tx)
    requires Serves(getTx, l.txs) && forall i :: 0 <= i < |us| ==> IsUnspent(l, us[i])
    ensures SumCents(DDUtxosIn(us, getTx)) == CentsSpent(DDTokens, l.txs, AsInputs(us))
  {
    if us != [] {
      var n := |us| - 1;
      ScanFinds(l, us[..n], getTx);
      OneFound(l, us[n], getTx);
      assert AsInputs(us)[..n] == AsInputs(us[..n]);
      var found := DDUtxosIn(us[..n], getTx);
      var cents := CentsAt(DDTokens(getTx(us[n].txid)), us[n].vout);
      if us[n].value == 0 && cents.Some? {
        SumCentsOne(found, DDUtxo(us[n].txid, us[n].vout, cents.value, us[n].height));
      } else {
        assert found + [] == found;
      }
    }
  }

  lemma TokensListed(l: Ledger, us: seq<Utxo>, i: nat)
    requires ListsUnspent(l, us) && i < |l.txs|
    ensures AllSpent(DDTokens(l.txs[i].tx), l.txs[i].id, SpendAll(l.spent, AsInputs(us)))
  {
    var tx, id, ins := l.txs[i].tx, l.txs[i].id, AsInputs(us);
    TokensAreOutputs(tx);
    var tokens := DDTokens(tx);
    forall k | 0 <= k < |tokens| ensures (id, tokens[k].vout) in SpendAll(l.spent, ins) {
      SpentExactly(l.spent, ins, (id, tokens[k].vout));
    }
  }

  /** Over all unspent outputs of a ledger the scan finds exactly the supply. */
  lemma ScanFindsSupply(l: Ledger, us: seq<Utxo>, getTx: Hash32 -> Tx)
    requires DistinctIds(l.txs) && Serves(getTx, l.txs) && ListsUnspent(l, us)
    ensures SumCents(DDUtxosIn(us, getTx)) == Supply(l)
  {
    ScanFinds(l, us, getTx);
    ClaimsAreOrderly();
    forall i | 0 <= i < |l.txs| ensures AllSpent(DDTokens(l.txs[i].tx), l.txs[i].id, SpendAll(l.spent, AsInputs(us))) {
      TokensListed(l, us, i);
    }
    forall i | 0 <= i < |us| ensures Prevout(AsInputs(us)[i]) !in l.spent {
      assert IsUnspent(l, us[i]);
    }
    ListedIsBalance(DDTokens, l, AsInputs(us));
  }

  // ---- address by address ----

  function Flat(lists: seq<seq<Utxo>>): seq<Utxo> {
    if lists == [] then [] else Flat(lists[..|lists| - 1]) + lists[|lists| - 1]
  }

  /** The balances the indexer answers for one address after another. */
  function SumScans(lists: seq<seq<Utxo>>, getTx: Hash32 -> Tx): nat {
    if lists == [] then 0
    else SumScans(lists[..|lists| - 1], getTx) + SumCents(DDUtxosIn(lists[|lists| - 1], getTx))
  }

  /** A function that takes a list element by element takes a concatenation piece by piece. */
  lemma {:induction false} PieceByPiece<T, U>(a: seq<T>, b: seq<T>, f: seq<T> -> seq<U>, g: T -> seq<U>)
    requires f([]) == [] && forall us, u :: f(us + [u]) == f(us) + g(u)
    ensures f(a + b) == f(a) + f(b)
  {
    if b == [] {
      assert a + b == a;
    } else {
      var front, last := b[..|b| - 1], b[|b| - 1];
      PieceByPiece(a, front, f, g);
      assert a + b == (a + front) + [last] && b == front + [last];
      assert f(a + b) == f(a) + f(front) + g(last);
    }
  }

  lemma ScanConcat(a: seq<Utxo>, b: seq<Utxo>, getTx: Hash32 -> Tx)
    ensures DDUtxosIn(a + b, getTx) == DDUtxosIn(a, getTx) + DDUtxosIn(b, getTx)
  {
    var f := us => DDUtxosIn(us, getTx);
    var g := u => DDUtxosIn([u], getTx);
    forall us, u ensures f(us + [u]) == f(us) + g(u) {
      ScanLast(us, u, getTx);
    }
    PieceByPiece(a, b, f, g);
  }

  lemma ScanLast(us: seq<Utxo>, u: Utxo, getTx: Hash32 -> Tx)
    ensures DDUtxosIn(us + [u], getTx) == DDUtxosIn(us, getTx) + DDUtxosIn([u], getTx)
  {
    assert (us + [u])[..|us|] == us && [u][..0] == [];
  }

  lemma {:induction false} SumConcat(a: seq<DDUtxo>, b: seq<DDUtxo>)
    ensures SumCents(a + b) == SumCents(a) + SumCents(b)
  {
    if b == [] {
      assert a + b == a;
    } else {
      assert (a + b)[..|a + b| - 1] == a + b[..|b| - 1];
      SumConcat(a, b[..|b| - 1]);
    }
  }

  lemma {:induction false} ScansAddUp(lists: seq<seq<Utxo>>, getTx: Hash32 -> Tx)
    ensures SumScans(lists, getTx) == SumCents(DDUtxosIn(Flat(lists), getTx))
  {
    if lists != [] {
      var n := |lists| - 1;
      ScansAddUp(lists[..n], getTx);
      ScanConcat(Flat(lists[..n]), lists[n], getTx);
      SumConcat(DDUtxosIn(Flat(lists[..n]), getTx), DDUtxosIn(lists[n], getTx));
    }
  }

  // ---- positions ----

  /** The tweak of every owner key in the ledger is the one the mint was built with. */
  ghost predicate TweaksOwners(tweak: Tweak, c: Crypto, txs: seq<Mined>) {
    forall i :: 0 <= i < |txs| ==>
      var m := MintOf(txs[i].tx); m.Some? ==> tweak(m.value.ownerKey) == Some(c.tweak(AsKey(m.value.ownerKey)))
  }

  /** A position's cents, if it is this owner's. */
  function Owned(tweak: Tweak, program: Bytes, tx: Tx): seq<Token> {
    var m := MintOf(tx);
    if m == None || tweak(m.value.ownerKey) != Some(program) then [] else [Token(0, m.value.ddCents)]
  }

  ghost function OwnerClaim(tweak: Tweak, program: Bytes): (claim: Claim)
    ensures forall tx :: claim(tx) == Owned(tweak, program, tx)
    ensures Orderly(claim)
  {
    tx => Owned(tweak, program, tx)
  }

  /** An Electrum history of an address: ledger transactions, each once, every one that pays it among them. */
  ghost predicate ListsHistory(l: Ledger, history: seq<Seen>, script: Bytes) {
    && (forall i :: 0 <= i < |history| ==> Find(l.txs, history[i].txid).Some?)
    && (forall i, j :: 0 <= i < j < |history| ==> history[i].txid != history[j].txid)
    && (forall i, v :: 0 <= i < |l.txs| && 0 <= v < |l.txs[i].tx.outputs| && l.txs[i].tx.outputs[v].script == script ==>
          exists k :: 0 <= k < |history| && history[k].txid == l.txs[i].id)
  }

  /** The unspent collateral outputs of a history. */
  function Collaterals(history: seq<Seen>, spent: set<Outpoint>): seq<TxIn> {
    if history == [] then []
    else
      var id := history[|history| - 1].txid;
      Collaterals(history[..|history| - 1], spent) + if (id, 0) in spent then [] else [TxIn(id, 0, 0)]
  }

  function SumPositions(ps: seq<Position>): nat {
    if ps == [] then 0 else SumPositions(ps[..|ps| - 1]) + ps[|ps| - 1].ddCents
  }

  lemma SumPositionsOne(ps: seq<Position>, p: Position)
    ensures SumPositions(ps + [p]) == SumPositions(ps) + p.ddCents
  {
    assert (ps + [p])[..|ps|] == ps;
  }

  ghost predicate Lists(history: seq<Seen>, id: Hash32) {
    exists k :: 0 <= k < |history| && history[k].txid == id
  }

  ghost predicate Spends(ins: seq<TxIn>, o: Outpoint) {
    exists i :: 0 <= i < |ins| && Prevout(ins[i]) == o
  }

  lemma ListsMore(history: seq<Seen>, h: Seen, id: Hash32)
    ensures Lists(history + [h], id) <==> Lists(history, id) || h.txid == id
  {
    var all := history + [h];
    assert all[|history|] == h;
    if k :| 0 <= k < |history| && history[k].txid == id {
      assert all[k].txid == id;
    }
  }

  lemma SpendsMore(ins: seq<TxIn>, i: TxIn, o: Outpoint)
    ensures Spends(ins + [i], o) <==> Spends(ins, o) || Prevout(i) == o
  {
    var all := ins + [i];
    assert all[|ins|] == i;
    if k :| 0 <= k < |ins| && Prevout(ins[k]) == o {
      assert Prevout(all[k]) == o;
    }
  }

  lemma {:induction false} CollateralsAre(history: seq<Seen>, spent: set<Outpoint>, o: Outpoint)
    ensures Spends(Collaterals(history, spent), o) <==> o.1 == 0 && o !in spent && Lists(history, o.0)
  {
    if history != [] {
      var n := |history| - 1;
      var front := Collaterals(history[..n], spent);
      CollateralsAre(history[..n], spent, o);
      ListsMore(history[..n], history[n], o.0);
      assert history == history[..n] + [history[n]];
      if (history[n].txid, 0) in spent {
        assert Collaterals(history, spent) == front + [] == front;
      } else {
        SpendsMore(front, TxIn(history[n].txid, 0, 0), o);
      }
    }
  }

  lemma {:induction false} CollateralsDistinct(history: seq<Seen>, spent: set<Outpoint>)
    requires forall i, j :: 0 <= i < j < |history| ==> history[i].txid != history[j].txid
    ensures DistinctInputs(Collaterals(history, spent))
  {
    if history != [] {
      var n := |history| - 1;
      var front := Collaterals(history[..n], spent);
      CollateralsDistinct(history[..n], spent);
      forall i | 0 <= i < |front| ensures Prevout(front[i]) != (history[n].txid, 0) {
        assert Spends(front, Prevout(front[i]));
        CollateralsAre(history[..n], spent, Prevout(front[i]));
      }
    }
  }

  /** What one history entry adds. */
  lemma OnePosition(c: Crypto, l: Ledger, h: Seen, getTx: Hash32 -> Tx, unspent: Hash32 -> bool, tweak: Tweak, program: Bytes)
    requires Serves(getTx, l.txs) && TweaksOwners(tweak, c, l.txs) && Find(l.txs, h.txid).Some?
    requires unspent(h.txid) == ((h.txid, 0) !in l.spent)
    ensures var p := PositionAt(h, getTx, unspent, tweak, program);
            && p.Some? && |p.value| <= 1
            && (if p.value == [] then 0 else p.value[0].ddCents)
               == if (h.txid, 0) in l.spent then 0 else CentsOn(OwnerClaim(tweak, program), l.txs, (h.txid, 0))
  {
    ServesFound(getTx, l.txs, h.txid);
    var i := FoundIsMined(l.txs, h.txid);
    var tx := getTx(h.txid);
    MintHasOutputs(tx);
    ClaimAtZero(Owned(tweak, program, tx));
  }

  lemma ClaimAtZero(claims: seq<Token>)
    requires claims == [] || (|claims| == 1 && claims[0].vout == 0)
    ensures ClaimAt(claims, 0) == if claims == [] then 0 else claims[0].cents
  {
  }

  lemma {:induction false} PositionsFound(c: Crypto, l: Ledger, history: seq<Seen>, getTx: Hash32 -> Tx, unspent: Hash32 -> bool,
                                          tweak: Tweak, program: Bytes)
    requires Serves(getTx, l.txs) && TweaksOwners(tweak, c, l.txs)
    requires forall i :: 0 <= i < |history| ==>
               Find(l.txs, history[i].txid).Some? && unspent(history[i].txid) == ((history[i].txid, 0) !in l.spent)
    ensures var ps := PositionsIn(history, getTx, unspent, tweak, program);
            ps.Some? && SumPositions(ps.value) == CentsSpent(OwnerClaim(tweak, program), l.txs, Collaterals(history, l.spent))
  {
    if history != [] {
      var n := |history| - 1;
      var claim := OwnerClaim(tweak, program);
      PositionsFound(c, l, history[..n], getTx, unspent, tweak, program);
      OnePosition(c, l, history[n], getTx, unspent, tweak, program);
      var front := PositionsIn(history[..n], getTx, unspent, tweak, program).value;
      var last := PositionAt(history[n], getTx, unspent, tweak, program).value;
      if last == [] {
        assert front + last == front;
      } else {
        assert last == [last[0]];
        SumPositionsOne(front, last[0]);
      }
      LastCollateral(claim, l, history);
    }
  }

  lemma LastCollateral(claim: Claim, l: Ledger, history: seq<Seen>)
    requires history != []
    ensures var n := |history| - 1;
            var o := (history[n].txid, 0);
            CentsSpent(claim, l.txs, Collaterals(history, l.spent))
            == CentsSpent(claim, l.txs, Collaterals(history[..n], l.spent)) + if o in l.spent then 0 else CentsOn(claim, l.txs, o)
  {
    var n := |history| - 1;
    var front := Collaterals(history[..n], l.spent);
    if (history[n].txid, 0) in l.spent {
      assert Collaterals(history, l.spent) == front + [] == front;
    } else {
      var last := TxIn(history[n].txid, 0, 0);
      SpentConcat(claim, l.txs, front, [last]);
      SpentOne(claim, l.txs, last);
    }
  }

  lemma OwnedListed(c: Crypto, l: Ledger, history: seq<Seen>, tweak: Tweak, program: Key32, i: nat)
    requires AllLocked(c, l.txs) && TweaksOwners(tweak, c, l.txs) && ListsHistory(l, history, P2tr(program)) && i < |l.txs|
    ensures AllSpent(Owned(tweak, program, l.txs[i].tx), l.txs[i].id, SpendAll(l.spent, Collaterals(history, l.spent)))
  {
    var tx, id, ins := l.txs[i].tx, l.txs[i].id, Collaterals(history, l.spent);
    if Owned(tweak, program, tx) != [] {
      assert CollateralLocked(c, tx) && tx.outputs[1].script == P2tr(program);
      CollateralsAre(history, l.spent, (id, 0));
      assert Lists(history, id);
      SpentExactly(l.spent, ins, (id, 0));
    }
  }

  /** Which collateral is unspent, as Electrum answers it. */
  ghost predicate KnowsUnspent(l: Ledger, unspent: Hash32 -> bool) {
    forall id {:trigger unspent(id)} :: unspent(id) == ((id, 0) !in l.spent)
  }

  /** Every open mint of an owner is in the owner's history, so the owner's scan finds all of them. */
  lemma OwnersScan(c: Crypto, l: Ledger, history: seq<Seen>, getTx: Hash32 -> Tx, unspent: Hash32 -> bool, tweak: Tweak, program: Key32)
    requires DistinctIds(l.txs) && AllLocked(c, l.txs) && Serves(getTx, l.txs) && TweaksOwners(tweak, c, l.txs)
    requires ListsHistory(l, history, P2tr(program))
    requires KnowsUnspent(l, unspent)
    ensures var ps := PositionsIn(history, getTx, unspent, tweak, program);
            ps.Some? && SumPositions(ps.value) == Balance(OwnerClaim(tweak, program), l.txs, l.spent)
  {
    PositionsFound(c, l, history, getTx, unspent, tweak, program);
    var ins := Collaterals(history, l.spent);
    CollateralsDistinct(history, l.spent);
    forall i | 0 <= i < |ins| ensures Prevout(ins[i]) !in l.spent {
      assert Spends(ins, Prevout(ins[i]));
      CollateralsAre(history, l.spent, Prevout(ins[i]));
    }
    forall i | 0 <= i < |l.txs|
      ensures AllSpent(OwnerClaim(tweak, program)(l.txs[i].tx), l.txs[i].id, SpendAll(l.spent, ins))
    {
      OwnedListed(c, l, history, tweak, program, i);
    }
    ListedIsBalance(OwnerClaim(tweak, program), l, ins);
  }

  // ---- owner by owner ----

  /** The cents of one transaction's position, summed over owners. */
  ghost function OverOwners(tweak: Tweak, owners: seq<Key32>, m: Mined, spent: set<Outpoint>): nat {
    if owners == [] then 0
    else
      var n := |owners| - 1;
      OverOwners(tweak, owners[..n], m, spent) + Unspent(Owned(tweak, owners[n], m.tx), m.id, spent)
  }

  ghost function OwnersBalance(tweak: Tweak, owners: seq<Key32>, txs: seq<Mined>, spent: set<Outpoint>): nat {
    if owners == [] then 0
    else
      var n := |owners| - 1;
      OwnersBalance(tweak, owners[..n], txs, spent) + Balance(OwnerClaim(tweak, owners[n]), txs, spent)
  }

  predicate DistinctOwners(owners: seq<Key32>) {
    forall i, j :: 0 <= i < j < |owners| ==> owners[i] != owners[j]
  }

  /** A mint is reported to its owner and to nobody else. */
  lemma {:induction false} OneOwner(tweak: Tweak, owners: seq<Key32>, m: Mined, spent: set<Outpoint>)
    requires DistinctOwners(owners)
    ensures var meta := MintOf(m.tx);
            OverOwners(tweak, owners, m, spent)
            == if meta.Some? && (exists k :: 0 <= k < |owners| && tweak(meta.value.ownerKey) == Some(owners[k]))
               then Unspent(PositionClaim(m.tx), m.id, spent) else 0
  {
    if owners != [] {
      var n := |owners| - 1;
      OneOwner(tweak, owners[..n], m, spent);
      var meta := MintOf(m.tx);
      if meta.Some? {
        if tweak(meta.value.ownerKey) == Some(owners[n]) {
          assert forall k :: 0 <= k < n ==> owners[..n][k] != owners[n];
        } else if k :| 0 <= k < |owners| && tweak(meta.value.ownerKey) == Some(owners[k]) {
          assert owners[..n][k] == owners[k];
        }
      }
    }
  }

  lemma {:induction false} OwnersStep(tweak: Tweak, owners: seq<Key32>, txs: seq<Mined>, m: Mined, spent: set<Outpoint>)
    ensures OwnersBalance(tweak, owners, txs + [m], spent)
         == OwnersBalance(tweak, owners, txs, spent) + OverOwners(tweak, owners, m, spent)
  {
    if owners != [] {
      OwnersStep(tweak, owners[..|owners| - 1], txs, m, spent);
      assert (txs + [m])[..|txs|] == txs;
    }
  }

  lemma {:induction false} NoTxs(tweak: Tweak, owners: seq<Key32>, spent: set<Outpoint>)
    ensures OwnersBalance(tweak, owners, [], spent) == 0
  {
    if owners != [] {
      NoTxs(tweak, owners[..|owners| - 1], spent);
    }
  }

  /** Every mint belongs to one of the owners. */
  ghost predicate Covers(tweak: Tweak, owners: seq<Key32>, txs: seq<Mined>) {
    forall i :: 0 <= i < |txs| ==> Covered(tweak, owners, txs[i].tx)
  }

  ghost predicate Covered(tweak: Tweak, owners: seq<Key32>, tx: Tx) {
    var m := MintOf(tx);
    m.Some? ==> exists k :: 0 <= k < |owners| && tweak(m.value.ownerKey) == Some(owners[k])
  }

  lemma {:induction false} OwnersAddUp(tweak: Tweak, owners: seq<Key32>, txs: seq<Mined>, spent: set<Outpoint>)
    requires DistinctOwners(owners) && Covers(tweak, owners, txs)
    ensures OwnersBalance(tweak, owners, txs, spent) == Balance(PositionClaim, txs, spent)
  {
    if txs == [] {
      NoTxs(tweak, owners, spent);
    } else {
      var n := |txs| - 1;
      OwnersAddUp(tweak, owners, txs[..n], spent);
      OwnersStep(tweak, owners, txs[..n], txs[n], spent);
      assert txs[..n] + [txs[n]] == txs;
      assert Covered(tweak, owners, txs[n].tx);
      OneOwner(tweak, owners, txs[n], spent);
    }
  }

  /** The cents of the positions answered for one owner after another; None if a scan threw. */
  function SumFound(found: seq<Option<seq<Position>>>): Option<nat> {
    if found == [] then Some(0)
    else
      var n := |found| - 1;
      var before := SumFound(found[..n]);
      if before == None || found[n] == None then None else Some(before.value + SumPositions(found[n].value))
  }

  /** One history per owner. */
  ghost predicate Histories(l: Ledger, owners: seq<Key32>, histories: seq<seq<Seen>>) {
    |owners| == |histories| && forall k :: 0 <= k < |owners| ==> ListsHistory(l, histories[k], P2tr(owners[k]))
  }

  ghost predicate Served(c: Crypto, l: Ledger, getTx: Hash32 -> Tx, unspent: Hash32 -> bool, tweak: Tweak) {
    Serves(getTx, l.txs) && TweaksOwners(tweak, c, l.txs) && KnowsUnspent(l, unspent)
  }

  /** scanPositions, run for one owner after another. */
  ghost predicate Scanned(found: seq<Option<seq<Position>>>, owners: seq<Key32>, histories: seq<seq<Seen>>, getTx: Hash32 -> Tx,
                          unspent: Hash32 -> bool, tweak: Tweak)
  {
    && |found| == |owners| == |histories|
    && forall k :: 0 <= k < |found| ==> found[k] == PositionsIn(histories[k], getTx, unspent, tweak, owners[k])
  }

  function Total(balances: seq<nat>): nat {
    if balances == [] then 0 else Total(balances[..|balances| - 1]) + balances[|balances| - 1]
  }

  lemma {:induction false} FoundAddUp(found: seq<Option<seq<Position>>>, balances: seq<nat>)
    requires |found| == |balances|
    requires forall k :: 0 <= k < |found| ==> found[k].Some? && SumPositions(found[k].value) == balances[k]
    ensures SumFound(found) == Some(Total(balances))
  {
    if found != [] {
      FoundAddUp(found[..|found| - 1], balances[..|found| - 1]);
    }
  }

  lemma {:induction false} BalancesAddUp(tweak: Tweak, owners: seq<Key32>, l: Ledger, balances: seq<nat>)
    requires |owners| == |balances|
    requires forall k :: 0 <= k < |owners| ==> balances[k] == Balance(OwnerClaim(tweak, owners[k]), l.txs, l.spent)
    ensures Total(balances) == OwnersBalance(tweak, owners, l.txs, l.spent)
  {
    if owners != [] {
      BalancesAddUp(tweak, owners[..|owners| - 1], l, balances[..|owners| - 1]);
    }
  }

  lemma OwnerScansAddUp(c: Crypto, l: Ledger, owners: seq<Key32>, histories: seq<seq<Seen>>, getTx: Hash32 -> Tx,
                        unspent: Hash32 -> bool, tweak: Tweak, found: seq<Option<seq<Position>>>)
    requires DistinctIds(l.txs) && AllLocked(c, l.txs) && Served(c, l, getTx, unspent, tweak)
    requires Histories(l, owners, histories) && Scanned(found, owners, histories, getTx, unspent, tweak)
    ensures SumFound(found) == Some(OwnersBalance(tweak, owners, l.txs, l.spent))
  {
    ghost var balances := seq(|owners|, k requires 0 <= k < |owners| => Balance(OwnerClaim(tweak, owners[k]), l.txs, l.spent));
    forall k | 0 <= k < |owners| ensures found[k].Some? && SumPositions(found[k].value) == balances[k] {
      OwnersScan(c, l, histories[k], getTx, unspent, tweak, owners[k]);
    }
    FoundAddUp(found, balances);
    BalancesAddUp(tweak, owners, l, balances);
  }

  // ---- the indexer's answers over every run ----

  /** After every run the DigiDollar that scanDDUtxos finds over all addresses, the open positions that
      scanPositions finds over all owners, and all that was minted less all redeemed are one number; and no
      position scan throws. */
  lemma ScansAgree(c: Crypto, steps: seq<Step>, lists: seq<seq<Utxo>>, owners: seq<Key32>, histories: seq<seq<Seen>>,
                   getTx: Hash32 -> Tx, unspent: Hash32 -> bool, tweak: Tweak, found: seq<Option<seq<Position>>>)
    requires AllowedRun(c, EMPTY, steps)
    requires var l := Run(c, EMPTY, steps);
             && Served(c, l, getTx, unspent, tweak) && ListsUnspent(l, Flat(lists))
             && DistinctOwners(owners) && Covers(tweak, owners, l.txs) && Histories(l, owners, histories)
    requires Scanned(found, owners, histories, getTx, unspent, tweak)
    ensures SumScans(lists, getTx) == AllCreated(steps)
    ensures SumFound(found) == Some(SumScans(lists, getTx))
  {
    var l := Run(c, EMPTY, steps);
    RunKeeps(c, EMPTY, steps);
    ScansAddUp(lists, getTx);
    ScanFindsSupply(l, Flat(lists), getTx);
    OwnerScansAddUp(c, l, owners, histories, getTx, unspent, tweak, found);
    OwnersAddUp(tweak, owners, l.txs, l.spent);
  }
}
