/** The rule by which a transaction's metadata gives cents to its outputs, counted out: what ddAmountsByVout computes
    with a filter and a map. */
module TokenRules {
  import opened Common
  import opened Envelope
  import opened TxWire
  import opened Builders
  import opened Indexer

  predicate Begins(script: Bytes, opcode: byte) {
    |script| >= 1 && script[0] == opcode
  }

  /** Zero value, and a script that begins OP_1 and a push of 32. */
  predicate Canonical(o: TxOut) {
    o.valueSats == 0 && |o.script| >= 2 && o.script[..2] == [0x51, 0x20]
  }

  /** How many canonical outputs stand before v. */
  function Place(outs: seq<TxOut>, v: nat): nat
    requires v <= |outs|
    decreases v
  {
    if v == 0 then 0 else Place(outs, v - 1) + if Canonical(outs[v - 1]) then 1 else 0
  }

  /** s is the script of the first OP_RETURN output. */
  ghost predicate FirstReturn(outs: seq<TxOut>, s: Bytes) {
    exists k: nat :: k < |outs| && outs[k].script == s && Begins(s, 0x6a) && forall j :: 0 <= j < k ==> !Begins(outs[j].script, 0x6a)
  }

  ghost predicate NoReturn(outs: seq<TxOut>) {
    forall o :: o in outs ==> !Begins(o.script, 0x6a)
  }

  lemma {:induction false} FirstReturnIff(outs: seq<TxOut>, s: Bytes)
    ensures FirstOpReturn(outs) == Some(s) <==> FirstReturn(outs, s)
    ensures FirstOpReturn(outs) == None <==> NoReturn(outs)
  {
    if outs != [] && !Begins(outs[0].script, 0x6a) {
      FirstReturnIff(outs[1..], s);
      if FirstReturn(outs[1..], s) {
        var k: nat :| k < |outs[1..]| && outs[1..][k].script == s && forall j :: 0 <= j < k ==> !Begins(outs[1..][j].script, 0x6a);
        assert forall j :: 0 < j < k + 1 ==> outs[j] == outs[1..][j - 1];
        assert outs[k + 1].script == s;
      }
      if FirstReturn(outs, s) {
        var k: nat :| k < |outs| && outs[k].script == s && forall j :: 0 <= j < k ==> !Begins(outs[j].script, 0x6a);
        assert outs[1..][k - 1].script == s;
      }
    } else if outs != [] {
      assert outs[0] in outs;
      if FirstReturn(outs, s) {
        var k: nat :| k < |outs| && outs[k].script == s && forall j :: 0 <= j < k ==> !Begins(outs[j].script, 0x6a);
        assert k == 0;
      }
    }
  }

  /** The amounts a transaction lists: by the type in its version, from its first OP_RETURN; a redeem may have none. */
  ghost predicate Lists(tx: Tx, amounts: seq<nat>) {
    match ParseDDVersion(tx.version)
    case None => false
    case Some(Mint) =>
      exists s :: FirstReturn(tx.outputs, s) && ParseMintMetadata(s).Some? && amounts == [ParseMintMetadata(s).value.ddCents]
    case Some(Transfer) => exists s :: FirstReturn(tx.outputs, s) && ParseTransferMetadata(s) == Some(amounts)
    case Some(Redeem) =>
      || (NoReturn(tx.outputs) && amounts == [])
      || exists s :: FirstReturn(tx.outputs, s) && ParseRedeemMetadata(s).Some? && amounts == [ParseRedeemMetadata(s).value]
  }

  lemma ListsIff(tx: Tx, amounts: seq<nat>)
    ensures ListedAmounts(tx) == Some(amounts) <==> Lists(tx, amounts)
  {
    forall s ensures FirstOpReturn(tx.outputs) == Some(s) <==> FirstReturn(tx.outputs, s) {
      FirstReturnIff(tx.outputs, s);
    }
    FirstReturnIff(tx.outputs, []);
  }

  // ---- the pairing ----

  lemma {:induction false} PlaceInFront(outs: seq<TxOut>, n: nat, v: nat)
    requires v <= n <= |outs|
    ensures Place(outs[..n], v) == Place(outs, v)
  {
    if v > 0 {
      PlaceInFront(outs, n, v - 1);
    }
  }

  /** A canonical output raises the place of all after it. */
  lemma {:induction false} PlaceGrows(outs: seq<TxOut>, v: nat, n: nat)
    requires v < n <= |outs| && Canonical(outs[v])
    ensures Place(outs, v) < Place(outs, n)
  {
    if v < n - 1 {
      PlaceGrows(outs, v, n - 1);
    }
  }

  ghost predicate Ranks(vouts: seq<nat>, outs: seq<TxOut>, n: nat)
    requires n <= |outs|
  {
    && |vouts| == Place(outs, n)
    && forall k: nat, v: nat :: k < |vouts| && vouts[k] == v <==> v < n && Canonical(outs[v]) && Place(outs, v) == k
  }

  /** The k-th canonical output is the one with k canonical ones before it. */
  lemma {:induction false} Ranked(outs: seq<TxOut>)
    ensures Ranks(TokenVouts(outs), outs, |outs|)
  {
    if outs != [] {
      var n := |outs| - 1;
      var front := TokenVouts(outs[..n]);
      Ranked(outs[..n]);
      forall v: nat | v <= n ensures Place(outs[..n], v) == Place(outs, v) {
        PlaceInFront(outs, n, v);
      }
      RankedFront(front, outs, n);
      LastRanked(front, outs, n);
    }
  }

  lemma RankedFront(vouts: seq<nat>, outs: seq<TxOut>, n: nat)
    requires n <= |outs| && Ranks(vouts, outs[..n], n)
    requires forall v: nat :: v <= n ==> Place(outs[..n], v) == Place(outs, v)
    ensures Ranks(vouts, outs, n)
  {
    assert forall v: nat :: v < n ==> outs[..n][v] == outs[v];
  }

  lemma LastRanked(front: seq<nat>, outs: seq<TxOut>, n: nat)
    requires n < |outs| && Ranks(front, outs, n)
    ensures Ranks(front + if Canonical(outs[n]) then [n] else [], outs, n + 1)
  {
    forall v: nat | v < n && Canonical(outs[v]) ensures Place(outs, v) < Place(outs, n) {
      PlaceGrows(outs, v, n);
    }
  }

  /** An output has cents exactly when it is canonical and the amounts reach its place among the canonical ones; then
      it has the amount of that place. */
  lemma PairedByPlace(tx: Tx, amounts: seq<nat>, v: nat, cents: nat)
    requires Lists(tx, amounts)
    ensures Token(v, cents) in DDTokens(tx) <==>
            v < |tx.outputs| && Canonical(tx.outputs[v]) && Place(tx.outputs, v) < |amounts|
            && amounts[Place(tx.outputs, v)] == cents
  {
    ListsIff(tx, amounts);
    var vouts := TokenVouts(tx.outputs);
    Ranked(tx.outputs);
    PairsAt(vouts, amounts, v, cents);
    if v < |tx.outputs| && Canonical(tx.outputs[v]) {
      var k := Place(tx.outputs, v);
      PlaceGrows(tx.outputs, v, |tx.outputs|);
      assert k < |vouts| && vouts[k] == v;
    }
  }

  lemma PairsAt(vouts: seq<nat>, amounts: seq<nat>, v: nat, cents: nat)
    ensures Token(v, cents) in Pair(vouts, amounts) <==>
            exists k :: 0 <= k < |vouts| && k < |amounts| && vouts[k] == v && amounts[k] == cents
  {
    var pairs := Pair(vouts, amounts);
    if Token(v, cents) in pairs {
      var k :| 0 <= k < |pairs| && pairs[k] == Token(v, cents);
    }
    if k :| 0 <= k < |vouts| && k < |amounts| && vouts[k] == v && amounts[k] == cents {
      assert pairs[k] == Token(v, cents);
    }
  }

  /** A transaction that lists nothing has no cents. */
  lemma NothingListed(tx: Tx)
    requires forall amounts :: !Lists(tx, amounts)
    ensures DDTokens(tx) == []
  {
    if ListedAmounts(tx).Some? {
      ListsIff(tx, ListedAmounts(tx).value);
    }
  }

  // ---- positions ----

  /** A mint is a transaction whose version says so and whose first OP_RETURN parses as one. */
  lemma MintOfIff(tx: Tx, m: MintMeta)
    ensures MintOf(tx) == Some(m) <==>
            ParseDDVersion(tx.version) == Some(Mint) && exists s :: FirstReturn(tx.outputs, s) && ParseMintMetadata(s) == Some(m)
  {
    forall s ensures FirstOpReturn(tx.outputs) == Some(s) <==> FirstReturn(tx.outputs, s) {
      FirstReturnIff(tx.outputs, s);
    }
  }

  /** The ids of the tiers that metadata may name by code. */
  ghost predicate TierOf(code: nat, id: Option<string>) {
    match id
    case Some(i) => code < |LOCK_TIERS| && LOCK_TIERS[code].id == i
    case None => code >= |LOCK_TIERS|
  }

  /** p is the position that the transaction of h opens for the owner of the program. */
  ghost predicate Opens(h: Seen, tx: Tx, tweak: Tweak, program: Bytes, p: Position) {
    exists m ::
      && MintOf(tx) == Some(m) && tx.outputs != [] && tweak(m.ownerKey) == Some(program)
      && p.txid == h.txid && p.height == h.height && p.ddCents == m.ddCents && p.unlockHeight == m.unlockHeight
      && TierOf(m.lockTier, p.tierId) && p.collateralSats == tx.outputs[0].valueSats
  }

  /** A history entry is reported exactly as the position its mint opens for this owner, while its collateral is
      unspent. */
  lemma PositionIff(h: Seen, getTx: Hash32 -> Tx, unspent: Hash32 -> bool, tweak: Tweak, program: Bytes, p: Position)
    ensures PositionAt(h, getTx, unspent, tweak, program) == Some([p]) <==>
            unspent(h.txid) && Opens(h, getTx(h.txid), tweak, program, p)
  {
  }

  /** A scan that ends reports exactly these, for all entries of the history. */
  lemma {:induction false} PositionsAre(history: seq<Seen>, getTx: Hash32 -> Tx, unspent: Hash32 -> bool, tweak: Tweak,
                                        program: Bytes, p: Position)
    requires PositionsIn(history, getTx, unspent, tweak, program).Some?
    ensures p in PositionsIn(history, getTx, unspent, tweak, program).value <==>
            exists h :: h in history && unspent(h.txid) && Opens(h, getTx(h.txid), tweak, program, p)
  {
    if history != [] {
      var n := |history| - 1;
      var front, h := history[..n], history[n];
      PositionsAre(front, getTx, unspent, tweak, program, p);
      PositionIff(h, getTx, unspent, tweak, program, p);
      OneAtMost(h, getTx, unspent, tweak, program);
      assert forall x :: x in history <==> x in front || x == h;
    }
  }

  lemma OneAtMost(h: Seen, getTx: Hash32 -> Tx, unspent: Hash32 -> bool, tweak: Tweak, program: Bytes)
    requires PositionAt(h, getTx, unspent, tweak, program).Some?
    ensures var ps := PositionAt(h, getTx, unspent, tweak, program).value; ps == [] || ps == [ps[0]]
  {
  }
}
